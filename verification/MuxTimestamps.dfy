/** The last repair of timestamps before a packet is written: `mux_fixup_ts`, called once for
    each packet of a stream, with what it remembers of the packet before. */
module MuxTimestamps {
  import opened Timestamps

  /** A packet's timestamps in the time base of the output stream. */
  datatype Packet = Packet(pts: int, dts: int)

  datatype Media = Audio | Video | Subtitle | Other

  datatype Config = Config(
    media: Media,
    streamcopyAudio: bool,  // audio without an encoder: rescaling sets pts to dts
    tsDrop: bool,
    noTimestamps: bool,     // AVFMT_NOTIMESTAMPS
    nonStrict: bool,        // AVFMT_TS_NONSTRICT
    exitOnError: bool)

  predicate InRange(p: Packet) {
    AV_NOPTS_VALUE <= p.pts && AV_NOPTS_VALUE <= p.dts
  }

  predicate Timed(c: Config) {
    !c.noTimestamps && !c.media.Other?
  }

  /** The least dts a packet may have after one with dts `last`. */
  function Floor(c: Config, last: int): int {
    last + if c.nonStrict then 0 else 1
  }

  function Max(a: int, b: int): int {
    if a < b then b else a
  }

  function Min(a: int, b: int): int {
    if a < b then a else b
  }

  function Min3(a: int, b: int, c: int): int {
    Min(Min(a, b), c)
  }

  function Max3(a: int, b: int, c: int): int {
    Max(Max(a, b), c)
  }

  // ----- what the repair is meant to do

  /** A pair of known timestamps that is out of order gives way to one guess for both. */
  function Ordered(p: Packet, last: int): Packet {
    if p.dts == AV_NOPTS_VALUE || p.pts == AV_NOPTS_VALUE || p.dts <= p.pts then p
    else if last + 1 <= p.pts then Packet(p.pts, p.pts)
    else if last + 1 <= p.dts then Packet(last + 1, last + 1)
    else Packet(p.dts, p.dts)
  }

  predicate TooEarly(c: Config, p: Packet, last: int) {
    Timed(c) && p.dts != AV_NOPTS_VALUE && last != AV_NOPTS_VALUE && p.dts < Floor(c, last)
  }

  function Lifted(p: Packet, floor: int): Packet {
    Packet(if p.pts == AV_NOPTS_VALUE then p.pts else Max(p.pts, floor), floor)
  }

  /** The packet with which the repair begins. */
  function Arriving(c: Config, p: Packet): Packet {
    if c.media.Video? && c.tsDrop then Packet(AV_NOPTS_VALUE, AV_NOPTS_VALUE)
    else if c.media.Audio? && c.streamcopyAudio then p.(pts := p.dts)
    else p
  }

  function Fixed(c: Config, p: Packet, last: int): Packet {
    var a := Arriving(c, p);
    if c.noTimestamps then a
    else
      var o := Ordered(a, last);
      if TooEarly(c, o, last) then Lifted(o, Floor(c, last)) else o
  }

  predicate Refused(c: Config, p: Packet, last: int) {
    c.exitOnError && !c.noTimestamps && TooEarly(c, Ordered(Arriving(c, p), last), last)
  }

  /** The replacement of an invalid pair by the median of three. */
  method ReplaceInvalid(p: Packet, last: int) returns (q: Packet)
    ensures q == Ordered(p, last)
  {
    q := p;
    if p.dts != AV_NOPTS_VALUE && p.pts != AV_NOPTS_VALUE && p.dts > p.pts {
      var guess := p.pts + p.dts + last + 1 - Min3(p.pts, p.dts, last + 1) - Max3(p.pts, p.dts, last + 1);
      q := Packet(guess, guess);
    }
  }

  class MuxStream {
    const config: Config
    var lastMuxDts: int

    constructor (config: Config)
      ensures this.config == config && lastMuxDts == AV_NOPTS_VALUE
    {
      this.config, lastMuxDts := config, AV_NOPTS_VALUE;
    }

    /** `mux_fixup_ts`. */
    method MuxFixupTs(packet: Packet) returns (p: Packet, ok: bool)
      requires InRange(packet) && AV_NOPTS_VALUE <= lastMuxDts
      modifies this
      ensures ok == !Refused(config, packet, old(lastMuxDts))
      ensures ok ==> p == Fixed(config, packet, old(lastMuxDts)) && lastMuxDts == p.dts
      ensures !ok ==> lastMuxDts == old(lastMuxDts)
      ensures AV_NOPTS_VALUE <= lastMuxDts
    {
      p := packet;
      if config.media.Video? && config.tsDrop {
        p := Packet(AV_NOPTS_VALUE, AV_NOPTS_VALUE);
      }
      if config.media.Audio? && config.streamcopyAudio {
        p := p.(pts := p.dts);
      }
      if !config.noTimestamps {
        p := ReplaceInvalid(p, lastMuxDts);
        if (config.media.Audio? || config.media.Video? || config.media.Subtitle?) &&
           p.dts != AV_NOPTS_VALUE && lastMuxDts != AV_NOPTS_VALUE
        {
          var max := lastMuxDts + if config.nonStrict then 0 else 1;
          if p.dts < max {
            if config.exitOnError {
              return p, false;
            }
            if p.pts >= p.dts {
              p := p.(pts := Max(p.pts, max));
            }
            p := p.(dts := max);
          }
        }
      }
      lastMuxDts := p.dts;
      ok := true;
    }

    /** The packets of a stream, one call each, up to the first that is refused. */
    method Write(packets: seq<Packet>) returns (written: seq<Packet>, ok: bool)
      requires forall p | p in packets :: InRange(p)
      requires lastMuxDts == AV_NOPTS_VALUE
      modifies this
      ensures (written, ok) == Written(config, packets)
    {
      written := [];
      for i := 0 to |packets|
        invariant (written, true) == Written(config, packets[..i])
        invariant lastMuxDts == Last(written) && AV_NOPTS_VALUE <= lastMuxDts
      {
        assert packets[..i + 1][..i] == packets[..i];
        var p, accepted := MuxFixupTs(packets[i]);
        if !accepted {
          RefusedForGood(config, packets, i + 1);
          return written, false;
        }
        written := written + [p];
      }
      assert packets[..|packets|] == packets;
      ok := true;
    }
  }

  // ----- whole runs

  function Last(written: seq<Packet>): int {
    if written == [] then AV_NOPTS_VALUE else written[|written| - 1].dts
  }

  function Written(c: Config, packets: seq<Packet>): (r: (seq<Packet>, bool))
    ensures |r.0| <= |packets| && (r.1 ==> |r.0| == |packets|)
  {
    if packets == [] then ([], true)
    else
      var (earlier, ok) := Written(c, packets[..|packets| - 1]);
      var p := packets[|packets| - 1];
      if !ok || Refused(c, p, Last(earlier)) then (earlier, false)
      else (earlier + [Fixed(c, p, Last(earlier))], true)
  }

  lemma {:induction false} RefusedForGood(c: Config, packets: seq<Packet>, n: nat)
    requires n <= |packets| && !Written(c, packets[..n]).1
    ensures Written(c, packets) == Written(c, packets[..n])
    decreases |packets|
  {
    if n == |packets| {
      assert packets[..n] == packets;
    } else {
      var front := packets[..|packets| - 1];
      assert front[..n] == packets[..n];
      RefusedForGood(c, front, n);
    }
  }

  /** The median of three, once the two timestamps are out of order, is what `Ordered` chooses. */
  lemma GuessIsMedian(p: Packet, last: int)
    requires p.dts != AV_NOPTS_VALUE && p.pts != AV_NOPTS_VALUE && p.dts > p.pts
    ensures var g := Ordered(p, last);
      && g.pts == g.dts && g.dts in {p.pts, p.dts, last + 1}
      && (g.dts <= p.pts || g.dts <= last + 1) && (g.dts <= p.dts)
      && (p.pts <= g.dts) && (last + 1 <= g.dts || p.dts <= g.dts)
  {
  }

  /** In a format with strict timestamps, a pair out of order becomes the later of its pts and
      the first free dts. */
  lemma StrictGuess(c: Config, p: Packet, last: int)
    requires Timed(c) && !c.nonStrict && Arriving(c, p) == p && InRange(p) && AV_NOPTS_VALUE <= last
    requires p.dts != AV_NOPTS_VALUE && p.pts != AV_NOPTS_VALUE && p.dts > p.pts
    ensures var v := Max(p.pts, last + 1); Fixed(c, p, last) == Packet(v, v)
  {
  }

  /** A pair in order is moved no further than it must be. */
  lemma LeastChange(c: Config, p: Packet, last: int, q: Packet)
    requires Timed(c) && Arriving(c, p) == p && InRange(p)
    requires p.dts != AV_NOPTS_VALUE && p.pts != AV_NOPTS_VALUE && p.dts <= p.pts
    requires AV_NOPTS_VALUE < last && q.dts <= q.pts && p.dts <= q.dts && p.pts <= q.pts && Floor(c, last) <= q.dts
    ensures Fixed(c, p, last).dts <= q.dts && Fixed(c, p, last).pts <= q.pts
  {
  }

  /** Video to be dropped loses both timestamps; copied audio has its dts for pts; a format
      without timestamps gets them as they come; and so does any format from a stream of another
      kind, unless a pair is out of order. */
  lemma {:induction false} WrittenByKind(c: Config, packets: seq<Packet>, i: nat)
    requires i < |Written(c, packets).0| && forall p | p in packets :: InRange(p)
    ensures var p := Written(c, packets).0[i];
      && (c.media == Video && c.tsDrop ==> p == Packet(AV_NOPTS_VALUE, AV_NOPTS_VALUE))
      && (c.media == Audio && c.streamcopyAudio ==> p.pts == p.dts)
      && (c.noTimestamps && c.media != Video && c.media != Audio ==> p == packets[i])
      && (c.noTimestamps && c.media == Video && !c.tsDrop ==> p == packets[i])
      && (c.noTimestamps && c.media == Audio ==>
          p == Packet(if c.streamcopyAudio then packets[i].dts else packets[i].pts, packets[i].dts))
      && (c.media == Other && InOrder(packets[i]) ==> p == packets[i])
  {
    var n := |packets| - 1;
    if i < |Written(c, packets[..n]).0| {
      WrittenByKind(c, packets[..n], i);
    } else {
      WrittenInRange(c, packets[..n]);
    }
  }

  lemma {:induction false} WrittenInRange(c: Config, packets: seq<Packet>)
    requires forall p | p in packets :: InRange(p)
    ensures AV_NOPTS_VALUE <= Last(Written(c, packets).0)
  {
    if packets != [] {
      WrittenInRange(c, packets[..|packets| - 1]);
      assert packets[|packets| - 1] in packets;
    }
  }

  /** No packet that is written with both timestamps has its pts below its dts. */
  lemma {:induction false} PtsNotBelowDts(c: Config, packets: seq<Packet>, i: nat)
    requires !c.noTimestamps && i < |Written(c, packets).0| && forall p | p in packets :: InRange(p)
    ensures var p := Written(c, packets).0[i];
      p.pts != AV_NOPTS_VALUE && p.dts != AV_NOPTS_VALUE ==> p.dts <= p.pts
  {
    var front := packets[..|packets| - 1];
    WrittenInRange(c, front);
    if i < |Written(c, front).0| {
      PtsNotBelowDts(c, front, i);
    }
  }

  /** The dts of the packets written increase, in formats that are not strict at least do not
      decrease, wherever they are known without a gap. */
  lemma {:induction false} DtsIncrease(c: Config, packets: seq<Packet>, i: nat, j: nat)
    requires Timed(c) && i < j < |Written(c, packets).0|
    requires forall k | i <= k <= j :: Written(c, packets).0[k].dts != AV_NOPTS_VALUE
    ensures var w := Written(c, packets).0; if c.nonStrict then w[i].dts <= w[j].dts else w[i].dts < w[j].dts
  {
    var front := packets[..|packets| - 1];
    var w, v := Written(c, packets).0, Written(c, front).0;
    assert forall k | 0 <= k < |v| :: w[k] == v[k];
    if j < |v| {
      DtsIncrease(c, front, i, j);
    } else if i < j - 1 {
      DtsIncrease(c, front, i, j - 1);
    }
  }

  /** So they do over a whole run of packets with known dts. */
  lemma {:induction false} KnownStaysKnown(c: Config, packets: seq<Packet>)
    requires forall p | p in packets :: InRange(p) && p.dts != AV_NOPTS_VALUE
    requires !(c.media.Video? && c.tsDrop)
    ensures forall q | q in Written(c, packets).0 :: q.dts != AV_NOPTS_VALUE
  {
    if packets != [] {
      var front := packets[..|packets| - 1];
      KnownStaysKnown(c, front);
      WrittenInRange(c, front);
      assert packets[|packets| - 1] in packets;
    }
  }

  lemma MonotonicRun(c: Config, packets: seq<Packet>)
    requires Timed(c) && !c.tsDrop && forall p | p in packets :: InRange(p) && p.dts != AV_NOPTS_VALUE
    ensures var w := Written(c, packets).0;
      forall i, j | 0 <= i < j < |w| :: if c.nonStrict then w[i].dts <= w[j].dts else w[i].dts < w[j].dts
  {
    KnownStaysKnown(c, packets);
    var w := Written(c, packets).0;
    forall i, j | 0 <= i < j < |w|
      ensures if c.nonStrict then w[i].dts <= w[j].dts else w[i].dts < w[j].dts
    {
      DtsIncrease(c, packets, i, j);
    }
  }

  /** A packet without dts makes the stream forget: whatever in-order pair follows it is written
      unchanged, however far back it lies. */
  lemma UnknownDtsForgets(c: Config, packets: seq<Packet>, p: Packet, q: Packet)
    requires Timed(c) && !c.tsDrop && Written(c, packets).1 && InRange(p) && InRange(q)
    requires p.dts == AV_NOPTS_VALUE && Arriving(c, q) == q && (q.pts == AV_NOPTS_VALUE || q.dts <= q.pts)
    ensures Written(c, packets + [p, q]) == (Written(c, packets).0 + [Arriving(c, p), q], true)
  {
    WrittenOn(c, packets, p);
    WrittenOn(c, packets + [p], q);
    assert packets + [p] + [q] == packets + [p, q];
    Two(Written(c, packets).0, Arriving(c, p), q);
  }

  lemma Two(w: seq<Packet>, p: Packet, q: Packet)
    ensures w + [p] + [q] == w + [p, q]
  {
  }

  lemma WrittenOn(c: Config, packets: seq<Packet>, p: Packet)
    requires Written(c, packets).1
    ensures var w := Written(c, packets).0;
      Written(c, packets + [p]) == if Refused(c, p, Last(w)) then (w, false) else (w + [Fixed(c, p, Last(w))], true)
  {
    assert (packets + [p])[..|packets|] == packets;
  }

  /** The dts a packet brings: its pts where the two are known and out of order. */
  function OnArrival(c: Config, q: Packet): int {
    var a := Arriving(c, q);
    if a.pts != AV_NOPTS_VALUE && a.dts != AV_NOPTS_VALUE && a.dts > a.pts then a.pts else a.dts
  }

  lemma {:induction false} GapForgets(c: Config, packets: seq<Packet>, gap: seq<Packet>)
    requires Timed(c) && Written(c, packets).1 && gap != [] && forall p | p in gap :: p.dts == AV_NOPTS_VALUE
    ensures Written(c, packets + gap).1 && Last(Written(c, packets + gap).0) == AV_NOPTS_VALUE
  {
    var n := |gap| - 1;
    var front, p := gap[..n], gap[n];
    assert p in gap && packets + gap == (packets + front) + [p];
    if front == [] {
      assert packets + front == packets;
    } else {
      GapForgets(c, packets, front);
    }
    WrittenOn(c, packets + front, p);
  }

  /** Exactly what a gap does to the order: after packets without dts, one or more, a packet is
      written with the dts it brings, so that it keeps the order with the last dts before the gap
      if and only if it brought one that does. */
  lemma OrderAcrossGapIff(c: Config, packets: seq<Packet>, gap: seq<Packet>, q: Packet)
    requires Timed(c) && !(c.media.Video? && c.tsDrop) && Written(c, packets).1
    requires gap != [] && forall p | p in gap :: p.dts == AV_NOPTS_VALUE
    requires InRange(q) && q.dts != AV_NOPTS_VALUE
    ensures var last := Last(Written(c, packets).0);
      var w := Written(c, packets + gap + [q]);
      && w.1 && Last(w.0) == OnArrival(c, q)
      && (Floor(c, last) <= Last(w.0) <==> Floor(c, last) <= OnArrival(c, q))
  {
    GapForgets(c, packets, gap);
    WrittenOn(c, packets + gap, q);
  }

  predicate Ascending(c: Config, packets: seq<Packet>) {
    forall i | 0 < i < |packets| :: Floor(c, packets[i - 1].dts) <= packets[i].dts
  }

  /** A dts that is known, and a pts that is unknown or not below it. */
  predicate InOrder(p: Packet) {
    p.dts != AV_NOPTS_VALUE && (p.pts == AV_NOPTS_VALUE || p.dts <= p.pts)
  }

  /** With `exit_on_error`, a run of packets with known, ordered timestamps is written to its end
      exactly if their dts ascend, in formats that are not strict at least do not descend; and
      then the dts are written as they came. */
  lemma {:induction false} AcceptedIff(c: Config, packets: seq<Packet>)
    requires Timed(c) && c.exitOnError && !(c.media.Video? && c.tsDrop)
    requires forall p | p in packets :: InOrder(p)
    ensures Written(c, packets).1 <==> Ascending(c, packets)
    ensures Written(c, packets).1 && packets != [] ==> Last(Written(c, packets).0) == packets[|packets| - 1].dts
  {
    if packets != [] {
      var n := |packets| - 1;
      var front, p := packets[..n], packets[n];
      assert p in packets && forall q | q in front :: q in packets;
      AcceptedIff(c, front);
      OrderedAccepted(c, p, Last(Written(c, front).0));
      AscendingSplit(c, packets);
      assert n > 0 ==> packets[n - 1] in packets;
    }
  }

  /** Nothing is refused without `exit_on_error`, in a format without timestamps, or of a stream
      of another kind. */
  lemma {:induction false} AllWritten(c: Config, packets: seq<Packet>)
    requires !c.exitOnError || c.noTimestamps || c.media == Other
    ensures Written(c, packets).1 && |Written(c, packets).0| == |packets|
  {
    if packets != [] {
      AllWritten(c, packets[..|packets| - 1]);
    }
  }

  lemma OrderedAccepted(c: Config, p: Packet, last: int)
    requires Timed(c) && c.exitOnError && !(c.media.Video? && c.tsDrop) && InOrder(p)
    ensures Refused(c, p, last) <==> last != AV_NOPTS_VALUE && p.dts < Floor(c, last)
    ensures !Refused(c, p, last) ==> Fixed(c, p, last).dts == p.dts
  {
  }

  lemma AscendingSplit(c: Config, packets: seq<Packet>)
    requires packets != []
    ensures var n := |packets| - 1;
      Ascending(c, packets) <==> Ascending(c, packets[..n]) && (n > 0 ==>
          Floor(c, packets[n - 1].dts) <= packets[n].dts)
  {
    var front := packets[..|packets| - 1];
    assert forall i | 0 <= i < |front| :: front[i] == packets[i];
  }

  /** In terms of any two packets of the run. */
  lemma {:induction false} AscendingPairs(c: Config, packets: seq<Packet>, i: nat, j: nat)
    requires Ascending(c, packets) && i < j < |packets|
    ensures if c.nonStrict then packets[i].dts <= packets[j].dts else packets[i].dts < packets[j].dts
  {
    if i < j - 1 {
      AscendingPairs(c, packets, i, j - 1);
    }
  }
}

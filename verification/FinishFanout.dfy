/** How demuxers, decoders and encoders hand each packet or frame to all of their destinations,
    and pass on the end of the stream. */
module FinishFanout {

  datatype Kind = Mux | Decoding | Filtering | Encoding

  /** What the destination's queue says to data: taken, no more wanted, or a failure. */
  datatype Reply = Ok | Eof | Err(code: int)

  datatype Mark = Data | Finish

  /** One destination, with everything that was issued to it so far. */
  datatype Dest = Dest(kind: Kind, finished: bool, issued: seq<Mark>)

  predicate Fresh(ds: seq<Dest>) {
    forall d | d in ds :: !d.finished && d.issued == []
  }

  predicate AllFinished(ds: seq<Dest>) {
    forall d | d in ds :: d.finished
  }

  /** Data, then at most one finish, which is there exactly if the flag says so. */
  predicate WellEnded(d: Dest) {
    if d.finished then d.issued != [] && d.issued[|d.issued| - 1] == Finish && Finish !in d.issued[..|d.issued| - 1]
    else Finish !in d.issued
  }

  predicate AllWellEnded(ds: seq<Dest>) {
    forall d | d in ds :: WellEnded(d)
  }

  // ----- one destination

  function Told(d: Dest, data: bool, reply: Reply): (Dest, Reply) {
    if d.finished then (d, Eof)
    else if !data then (d.(finished := true, issued := d.issued + [Finish]), Eof)
    else if reply.Eof? then (d.(finished := true, issued := d.issued + [Data, Finish]), Eof)
    else (d.(issued := d.issued + [Data]), reply)
  }

  /** `demux_stream_send_to_dst`, `dec_send_to_dst` and `enc_send_to_dst`. The result of issuing
      the finish is not looked at. */
  method SendToDst(d: Dest, data: bool, streamcopyEof: bool, reply: Reply) returns (d': Dest, r: Reply)
    ensures (d', r) == Told(d, Wants(d, data, streamcopyEof), reply)
    ensures d'.kind == d.kind && d'.finished == (d.finished || r == Eof)
    ensures d.finished ==> d'.issued == d.issued && r == Eof
    ensures !d.finished && !data ==> d'.issued == d.issued + [Finish] && r == Eof
    ensures !d.finished && data && d.kind.Mux? && streamcopyEof ==> d'.issued == d.issued + [Finish] && r == Eof
    ensures !d.finished && data && !(d.kind.Mux? && streamcopyEof) ==>
      d'.issued == d.issued + (if reply == Eof then [Data, Finish] else [Data]) && r == reply
  {
    if d.finished {
      return d, Eof;
    }
    var packet := data;
    if packet && d.kind.Mux? && streamcopyEof {
      packet := false;
    }
    d', r := d, Eof;
    if packet {
      d', r := d.(issued := d.issued + [Data]), reply;
      if r != Eof {
        return;
      }
    }
    d' := d'.(issued := d'.issued + [Finish], finished := true);
    assert packet ==> d'.issued == d.issued + [Data, Finish];
    r := Eof;
  }

  /** With `DEMUX_SEND_STREAMCOPY_EOF`, muxers are told of the end instead of given the packet. */
  predicate Wants(d: Dest, data: bool, streamcopyEof: bool) {
    data && !(d.kind.Mux? && streamcopyEof)
  }

  // ----- all destinations

  datatype Call = Call(data: bool, streamcopyEof: bool, replies: seq<Reply>)

  predicate Answers(ds: seq<Dest>, c: Call) {
    |c.replies| == |ds|
  }

  function Reached(ds: seq<Dest>, c: Call, i: nat): (r: (Dest, Reply))
    requires Answers(ds, c) && i < |ds|
  {
    Told(ds[i], Wants(ds[i], c.data, c.streamcopyEof), c.replies[i])
  }

  /** Where the call stops: the first destination that fails, or the end. */
  function StopAt(ds: seq<Dest>, c: Call, i: nat): (k: nat)
    requires Answers(ds, c) && i <= |ds|
    ensures i <= k <= |ds|
    ensures forall j | i <= j < k :: !Reached(ds, c, j).1.Err?
    ensures k < |ds| ==> Reached(ds, c, k).1.Err?
    decreases |ds| - i
  {
    if i == |ds| || Reached(ds, c, i).1.Err? then i else StopAt(ds, c, i + 1)
  }

  /** The destinations after a call: those up to and including the one that fails have been
      told, the others are as before. */
  function Fan(ds: seq<Dest>, c: Call): (ds': seq<Dest>)
    requires Answers(ds, c)
    ensures |ds'| == |ds|
    ensures forall i | 0 <= i < |ds| :: ds'[i] == if i <= StopAt(ds, c, 0) then Reached(ds, c, i).0 else ds[i]
  {
    seq(|ds|, i requires 0 <= i < |ds| => if i <= StopAt(ds, c, 0) then Reached(ds, c, i).0 else ds[i])
  }

  function Failure(ds: seq<Dest>, c: Call): Reply
    requires Answers(ds, c)
  {
    var k := StopAt(ds, c, 0);
    if k < |ds| then Reached(ds, c, k).1 else Ok
  }

  /** `demux_send_for_stream`; `sch_dec_send` is the same with a frame in every call. It reports
      the end exactly if no destination failed and all of them are finished. */
  method DemuxSend(ds: seq<Dest>, c: Call) returns (ds': seq<Dest>, r: Reply)
    requires Answers(ds, c)
    ensures ds' == Fan(ds, c)
    ensures if Failure(ds, c).Err? then r == Failure(ds, c) else r == if AllFinished(ds') then Eof else Ok
  {
    var nbDone := 0;
    ds' := ds;
    for i := 0 to |ds|
      invariant |ds'| == |ds| && i <= StopAt(ds, c, 0)
      invariant forall j | 0 <= j < |ds| :: ds'[j] == if j < i then Reached(ds, c, j).0 else ds[j]
      invariant nbDone <= i && (nbDone == i <==> forall j | 0 <= j < i :: ds'[j].finished)
    {
      var d, reply := SendToDst(ds[i], c.data, c.streamcopyEof, c.replies[i]);
      assert (d, reply) == Reached(ds, c, i);
      ds' := ds'[i := d];
      if reply == Eof {
        nbDone := nbDone + 1;
      } else if reply.Err? {
        return ds', reply;
      }
    }
    return ds', if nbDone == |ds| then Eof else Ok;
  }

  /** `sch_enc_send`: never reports that its destinations are finished. */
  method EncSend(ds: seq<Dest>, replies: seq<Reply>) returns (ds': seq<Dest>, r: Reply)
    requires |replies| == |ds|
    ensures ds' == Fan(ds, Call(true, false, replies)) && r == Failure(ds, Call(true, false, replies))
  {
    ghost var c := Call(true, false, replies);
    ds' := ds;
    for i := 0 to |ds|
      invariant |ds'| == |ds| && i <= StopAt(ds, c, 0)
      invariant forall j | 0 <= j < |ds| :: ds'[j] == if j < i then Reached(ds, c, j).0 else ds[j]
    {
      var d, reply := SendToDst(ds[i], true, false, replies[i]);
      assert (d, reply) == Reached(ds, c, i);
      ds' := ds'[i := d];
      if reply.Err? {
        return ds', reply;
      }
    }
    return ds', Ok;
  }

  // ----- what is issued

  /** The packet is offered to destination `i`: it is not finished, and no muxer that is to be told
      of the end instead. */
  predicate Offered(ds: seq<Dest>, c: Call, i: nat)
    requires i < |ds|
  {
    c.data && !ds[i].finished && !(ds[i].kind == Mux && c.streamcopyEof)
  }

  /** The call gets as far as destination `i`: none before it fails. */
  predicate GetsTo(ds: seq<Dest>, c: Call, i: nat)
    requires Answers(ds, c) && i <= |ds|
  {
    forall j: nat | j < i :: Offered(ds, c, j) ==> !c.replies[j].Err?
  }

  lemma GetsToIff(ds: seq<Dest>, c: Call, i: nat)
    requires Answers(ds, c) && i < |ds|
    ensures i <= StopAt(ds, c, 0) <==> GetsTo(ds, c, i)
  {
    forall j: nat | j < |ds| ensures Reached(ds, c, j).1.Err? <==> Offered(ds, c, j) && c.replies[j].Err? {
    }
  }

  /** What a call issues to a destination: nothing if it is finished, or behind one that fails; to
      one that the packet is offered to the packet, and a finish after it if it is refused with
      the end; to any other one that is not finished a finish alone. */
  lemma CallIssues(ds: seq<Dest>, c: Call, i: nat)
    requires Answers(ds, c) && i < |ds|
    ensures var d := Fan(ds, c)[i];
      && d.kind == ds[i].kind
      && (ds[i].finished || !GetsTo(ds, c, i) ==> d == ds[i])
      && (GetsTo(ds, c, i) && Offered(ds, c, i) ==>
          && d.issued == ds[i].issued + (if c.replies[i] == Eof then [Data, Finish] else [Data])
          && d.finished == (c.replies[i] == Eof))
      && (GetsTo(ds, c, i) && !ds[i].finished && !Offered(ds, c, i) ==>
          d.issued == ds[i].issued + [Finish] && d.finished)
  {
    GetsToIff(ds, c, i);
  }

  /** And the call fails with what the first destination to fail says, if there is one. */
  lemma CallFails(ds: seq<Dest>, c: Call)
    requires Answers(ds, c)
    ensures GetsTo(ds, c, |ds|) ==> Failure(ds, c) == Ok
    ensures forall j: nat | j < |ds| && GetsTo(ds, c, j) && Offered(ds, c, j) && c.replies[j].Err? ::
      Failure(ds, c) == c.replies[j]
  {
    forall j: nat | j < |ds| ensures Reached(ds, c, j).1.Err? <==> Offered(ds, c, j) && c.replies[j].Err? {
    }
    forall j: nat | j < |ds| && GetsTo(ds, c, j) && Offered(ds, c, j) && c.replies[j].Err?
      ensures Failure(ds, c) == c.replies[j]
    {
      GetsToIff(ds, c, j);
    }
  }

  function DataIn(ms: seq<Mark>): nat {
    if ms == [] then 0 else DataIn(ms[..|ms| - 1]) + if ms[|ms| - 1] == Data then 1 else 0
  }

  lemma DataAdd(ms: seq<Mark>, m: Mark)
    ensures DataIn(ms + [m]) == DataIn(ms) + if m == Data then 1 else 0
  {
    assert (ms + [m])[..|ms|] == ms;
  }

  lemma CallCounts(ds: seq<Dest>, c: Call, i: nat)
    requires Answers(ds, c) && i < |ds|
    ensures DataIn(Fan(ds, c)[i].issued) ==
      DataIn(ds[i].issued) + if GetsTo(ds, c, i) && Offered(ds, c, i) then 1 else 0
  {
    CallIssues(ds, c, i);
    DataInMore(ds[i].issued);
  }

  lemma DataInMore(ms: seq<Mark>)
    ensures DataIn(ms + [Data]) == DataIn(ms) + 1 && DataIn(ms + [Finish]) == DataIn(ms)
    ensures DataIn(ms + [Data, Finish]) == DataIn(ms) + 1
  {
    DataAdd(ms, Data);
    DataAdd(ms, Finish);
    DataAdd(ms + [Data], Finish);
    assert ms + [Data] + [Finish] == ms + [Data, Finish];
  }

  // ----- whole runs

  predicate AllAnswer(n: nat, calls: seq<Call>) {
    forall c | c in calls :: |c.replies| == n
  }

  function Run(ds: seq<Dest>, calls: seq<Call>): (ds': seq<Dest>)
    requires AllAnswer(|ds|, calls)
    ensures |ds'| == |ds|
    decreases |calls|
  {
    if calls == [] then ds else Run(Fan(ds, calls[0]), calls[1..])
  }

  lemma FanKeepsEnds(ds: seq<Dest>, c: Call)
    requires Answers(ds, c) && AllWellEnded(ds)
    ensures AllWellEnded(Fan(ds, c))
    ensures forall i | 0 <= i < |ds| :: ds[i].issued <= Fan(ds, c)[i].issued
    ensures forall i | 0 <= i < |ds| && ds[i].finished :: Fan(ds, c)[i] == ds[i]
  {
    forall i | 0 <= i < |ds|
      ensures WellEnded(Fan(ds, c)[i]) && ds[i].issued <= Fan(ds, c)[i].issued
    {
      assert WellEnded(ds[i]);
      var now := Fan(ds, c)[i].issued;
      if now != ds[i].issued {
        assert now[..|now| - 1] == ds[i].issued || now[..|now| - 1] == ds[i].issued + [Data];
      }
    }
  }

  /** In every run of calls, failed ones included, every destination is issued data, then at
      most one finish, then nothing. */
  lemma {:induction false} FinishedAtMostOnce(ds: seq<Dest>, calls: seq<Call>)
    requires AllWellEnded(ds) && AllAnswer(|ds|, calls)
    ensures AllWellEnded(Run(ds, calls))
    ensures forall i | 0 <= i < |ds| && ds[i].finished :: Run(ds, calls)[i] == ds[i]
    decreases |calls|
  {
    if calls != [] {
      FanKeepsEnds(ds, calls[0]);
      FinishedAtMostOnce(Fan(ds, calls[0]), calls[1..]);
    }
  }

  /** The calls of a run that offer a packet to destination `i`, and get there. */
  function OffersTo(ds: seq<Dest>, calls: seq<Call>, i: nat): nat
    requires AllAnswer(|ds|, calls) && i < |ds|
    decreases |calls|
  {
    if calls == [] then 0
    else
      (if GetsTo(ds, calls[0], i) && Offered(ds, calls[0], i) then 1 else 0) +
      OffersTo(Fan(ds, calls[0]), calls[1..], i)
  }

  /** Over every run, a destination is issued exactly one packet for each call that has one for it
      and gets that far while it is not finished. */
  lemma {:induction false} DataPerCall(ds: seq<Dest>, calls: seq<Call>, i: nat)
    requires AllAnswer(|ds|, calls) && i < |ds|
    ensures DataIn(Run(ds, calls)[i].issued) == DataIn(ds[i].issued) + OffersTo(ds, calls, i)
    decreases |calls|
  {
    if calls != [] {
      CallCounts(ds, calls[0], i);
      DataPerCall(Fan(ds, calls[0]), calls[1..], i);
    }
  }

  /** A call that ends the stream reaches every destination and never fails. */
  lemma EndReachesAll(ds: seq<Dest>, replies: seq<Reply>)
    requires |replies| == |ds|
    ensures AllFinished(Fan(ds, Call(false, false, replies))) && !Failure(ds, Call(false, false, replies)).Err?
  {
    var c := Call(false, false, replies);
    assert forall i | 0 <= i < |ds| :: !Reached(ds, c, i).1.Err?;
  }

  /** A task that starts with fresh destinations, makes any calls, is done, and is made to call
      again: each destination has been issued exactly one finish, as the last mark. */
  lemma DoneFinishesOnce(ds: seq<Dest>, calls: seq<Call>, replies: seq<Reply>, more: seq<Call>)
    requires Fresh(ds) && |replies| == |ds| && AllAnswer(|ds|, calls + more)
    ensures AllAnswer(|ds|, calls)
    ensures var done := Fan(Run(ds, calls), Call(false, false, replies));
      && AllFinished(done) && AllWellEnded(done)
      && AllAnswer(|done|, more) && Run(done, more) == done
  {
    assert forall c | c in calls :: c in calls + more;
    assert forall c | c in more :: c in calls + more;
    FinishedAtMostOnce(ds, calls);
    var done := Fan(Run(ds, calls), Call(false, false, replies));
    EndReachesAll(Run(ds, calls), replies);
    FanKeepsEnds(Run(ds, calls), Call(false, false, replies));
    FinishedAtMostOnce(done, more);
    assert forall i | 0 <= i < |done| :: done[i] in done;
  }

  // ----- the ends of the tasks

  /** A demuxer with the destinations of its streams, or a decoder with those of its outputs. */
  class Task {
    var outputs: seq<seq<Dest>>

    ghost predicate Valid()
      reads this
    {
      forall o | 0 <= o < |outputs| :: AllWellEnded(outputs[o])
    }

    constructor (outputs: seq<seq<Dest>>)
      requires forall ds | ds in outputs :: Fresh(ds)
      ensures this.outputs == outputs && Valid()
    {
      this.outputs := outputs;
      assert forall o | 0 <= o < |outputs| :: outputs[o] in outputs;
    }

    /** `demux_send_for_stream` and `sch_dec_send` on one output. */
    method Send(o: nat, c: Call) returns (r: Reply)
      requires Valid() && o < |outputs| && Answers(outputs[o], c)
      modifies this
      ensures Valid()
      ensures outputs == old(outputs)[o := Fan(old(outputs)[o], c)]
      ensures if Failure(old(outputs)[o], c).Err? then r == Failure(old(outputs)[o], c)
              else r == if AllFinished(outputs[o]) then Eof else Ok
    {
      FanKeepsEnds(outputs[o], c);
      var ds;
      ds, r := DemuxSend(outputs[o], c);
      outputs := outputs[o := ds];
    }

    /** `demux_done` and `dec_done`: every destination of every output ends, without an error,
        whatever happens to the finish on its way. */
    method Done() returns (r: Reply)
      requires Valid()
      modifies this
      ensures Valid() && r == Ok
      ensures |outputs| == |old(outputs)|
      ensures forall o | 0 <= o < |outputs| :: AllFinished(outputs[o]) && |outputs[o]| == |old(outputs)[o]|
      ensures forall o, i | 0 <= o < |outputs| && 0 <= i < |outputs[o]| ::
          old(outputs)[o][i].finished ==> outputs[o][i] == old(outputs)[o][i]
      ensures forall o, i | 0 <= o < |outputs| && 0 <= i < |outputs[o]| && !old(outputs)[o][i].finished ::
        outputs[o][i].issued == old(outputs)[o][i].issued + [Finish]
    {
      ghost var start := outputs;
      r := Ok;
      for o := 0 to |outputs|
        invariant Valid() && r == Ok && |outputs| == |start|
        invariant forall p | o <= p < |outputs| :: outputs[p] == start[p]
        invariant forall p | 0 <= p < o :: AllFinished(outputs[p]) && |outputs[p]| == |start[p]|
        invariant forall p, i | 0 <= p < o && 0 <= i < |outputs[p]| ::
            start[p][i].finished ==> outputs[p][i] == start[p][i]
        invariant forall p, i | 0 <= p < o && 0 <= i < |outputs[p]| && !start[p][i].finished ::
          outputs[p][i].issued == start[p][i].issued + [Finish]
      {
        var none := seq(|outputs[o]|, _ => Ok);
        EndReachesAll(outputs[o], none);
        var err := Send(o, Call(false, false, none));
        if err != Eof {
          r := if r == Ok then err else r;
        }
      }
    }
  }
}

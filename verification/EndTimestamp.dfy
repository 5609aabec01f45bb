/** How a demuxer that starts over learns when its decoders ended: it sends each a flush packet
    and waits for the decoder to answer with the timestamp at which its output ended. */
module EndTimestamp {
  import opened Topology
  import opened Timestamps

  // ----- the answer of all decoders together

  datatype Timestamp = Timestamp(ts: int, tb: TimeBase)

  ghost predicate Latest(ends: seq<Timestamp>, m: Timestamp) {
    if forall i | 0 <= i < |ends| :: ends[i].ts == AV_NOPTS_VALUE then m.ts == AV_NOPTS_VALUE
    else
      && m.ts != AV_NOPTS_VALUE && m in ends
      && forall i | 0 <= i < |ends| && ends[i].ts != AV_NOPTS_VALUE ::
        Seconds(ends[i].ts, ends[i].tb) <= Seconds(m.ts, m.tb)
  }

  /** What `demux_flush` reports: the latest of the ends the decoders report. */
  method MaxEnd(ends: seq<Timestamp>) returns (m: Timestamp)
    ensures Latest(ends, m)
  {
    m := Timestamp(AV_NOPTS_VALUE, TimeBase(1, 1));
    for i := 0 to |ends|
      invariant m.ts == AV_NOPTS_VALUE ==> forall k | 0 <= k < i :: ends[k].ts == AV_NOPTS_VALUE
      invariant m.ts != AV_NOPTS_VALUE ==> m in ends
      invariant forall k | 0 <= k < i && ends[k].ts != AV_NOPTS_VALUE ::
          Seconds(ends[k].ts, ends[k].tb) <= Seconds(m.ts, m.tb)
    {
      var ts := ends[i];
      if m.ts == AV_NOPTS_VALUE || (ts.ts != AV_NOPTS_VALUE && Seconds(m.ts, m.tb) < Seconds(ts.ts, ts.tb)) {
        m := ts;
      }
    }
  }

  // ----- the exchange with one decoder

  /** A packet in the decoder's queue: ordinary, the flush number `k`, or one that carries
      neither data nor side data without being a flush. */
  datatype Packet = Ordinary | Flush(k: nat) | Bare

  /** What an answer belongs to that answers no flush. */
  const NO_FLUSH: int := -1

  datatype Demux = Running | Waiting(k: nat) | Failed

  /** The decoder is between two calls of `sch_dec_receive`, inside one and about to take a
      packet, or at one of the two steps of `dec_done`. */
  datatype Decoder = Working | Receiving | Exiting | Exited

  datatype State = State(
    demux: Demux,
    decoder: Decoder,
    queue: seq<Packet>,
    frozen: bool,              // the queue gives out nothing: its demuxer is choked
    sendFinished: bool,        // the demuxer sends no more to this decoder
    receiveFinished: bool,     // the decoder reads no more
    expectEndTs: Option<int>,  // the flush whose end the decoder is to report next
    endTs: Option<int>,        // the queue of one end timestamp: the flush it belongs to
    receiveError: bool,        // set by a decoder that exits, for a demuxer that waits
    flushes: nat,
    // history
    accepted: seq<int>,        // the packets without data that the queue took: a flush's number, or `NO_FLUSH`
    pairs: seq<(nat, int)>)    // a flush that was answered, and what the answer belongs to

  datatype Action =
    | SendOrdinary | SendBare | SendFlush | SendFinish | GetEnd
    | Enter | Take | ReadEof | Leave | SetError
    | Freeze | Unfreeze

  const START: State := State(Running, Working, [], false, false, false, None, None, false, 0, [], [])

  predicate Enabled(s: State, a: Action) {
    match a
    case SendOrdinary => s.demux.Running? && !s.sendFinished
    case SendBare => s.demux.Running? && !s.sendFinished
    case SendFlush => s.demux.Running? && !s.sendFinished
    case SendFinish => !s.demux.Waiting? && !s.sendFinished
    case GetEnd => s.demux.Waiting? && (s.endTs.Some? || s.receiveError)
    case Enter => s.decoder.Working? && (s.expectEndTs.Some? ==> s.endTs.None?)
    case Take => s.decoder.Receiving? && !s.frozen && s.queue != []
    case ReadEof => s.decoder.Receiving? && !s.frozen && s.queue == [] && s.sendFinished
    case Leave => s.decoder.Working?
    case SetError => s.decoder.Exiting?
    case Freeze => true
    case Unfreeze => true
  }

  function Token(p: Packet): int {
    if p.Flush? then p.k else NO_FLUSH
  }

  function Taken(s: State): State
    requires s.queue != []
  {
    var p := s.queue[0];
    s.(queue := s.queue[1..], decoder := Working,
       expectEndTs := if p.Ordinary? then s.expectEndTs else Some(Token(p)))
  }

  /** A decoder that reads no more turns a packet into the finish of its queue. */
  function Sent(s: State, p: Packet): State {
    if s.receiveFinished then s.(sendFinished := true, frozen := false)
    else s.(queue := s.queue + [p], accepted := if p.Ordinary? then s.accepted else s.accepted + [Token(p)])
  }

  function Apply(s: State, a: Action): State
    requires Enabled(s, a)
  {
    match a
    case SendOrdinary => Sent(s, Ordinary)
    case SendBare => Sent(s, Bare)
    case SendFlush =>
      if s.receiveFinished then s.(demux := Failed)
      else Sent(s, Flush(s.flushes)).(demux := Waiting(s.flushes), flushes := s.flushes + 1)
    case SendFinish => s.(sendFinished := true, frozen := false)
    case GetEnd =>
      if s.endTs.Some? then
        s.(pairs := s.pairs + [(s.demux.k, s.endTs.value)], endTs := None, demux := Running)
      else s.(demux := Failed)
    case Enter =>
      if s.expectEndTs.Some? then s.(endTs := s.expectEndTs, expectEndTs := None, decoder := Receiving)
      else s.(decoder := Receiving)
    case Take => Taken(s)
    case ReadEof => s.(decoder := Exiting, receiveFinished := true)
    case Leave => s.(decoder := Exiting, receiveFinished := true)
    case SetError => s.(decoder := Exited, receiveError := true)
    case Freeze => s.(frozen := true)
    case Unfreeze => s.(frozen := false)
  }

  predicate ByDecoder(a: Action) {
    a.Enter? || a.Take? || a.ReadEof? || a.Leave? || a.SetError?
  }

  predicate CanRun(s: State, acts: seq<Action>)
    decreases |acts|
  {
    acts == [] || (Enabled(s, acts[0]) && CanRun(Apply(s, acts[0]), acts[1..]))
  }

  function Run(s: State, acts: seq<Action>): State
    requires CanRun(s, acts)
    decreases |acts|
  {
    if acts == [] then s else Run(Apply(s, acts[0]), acts[1..])
  }

  /** The states some run from the start ends in. */
  ghost predicate Reachable(t: State) {
    exists acts :: CanRun(START, acts) && Run(START, acts) == t
  }

  lemma {:induction false} RunOn(s: State, acts: seq<Action>, a: Action)
    requires CanRun(s, acts) && Enabled(Run(s, acts), a)
    ensures CanRun(s, acts + [a]) && Run(s, acts + [a]) == Apply(Run(s, acts), a)
    decreases |acts|
  {
    if acts == [] {
      assert acts + [a] == [a] && [a][1..] == [];
    } else {
      RunOn(Apply(s, acts[0]), acts[1..], a);
      assert (acts + [a])[1..] == acts[1..] + [a];
    }
  }

  lemma ReachOn(t: State, a: Action)
    requires Reachable(t) && Enabled(t, a)
    ensures Reachable(Apply(t, a))
  {
    var acts :| CanRun(START, acts) && Run(START, acts) == t;
    RunOn(START, acts, a);
  }

  // ----- the tokens under way

  function Tokens(q: seq<Packet>): seq<int> {
    if q == [] then []
    else if q[0].Ordinary? then Tokens(q[1..])
    else [Token(q[0])] + Tokens(q[1..])
  }

  lemma {:induction false} TokensAppend(q: seq<Packet>, p: Packet)
    ensures Tokens(q + [p]) == if p.Ordinary? then Tokens(q) else Tokens(q) + [Token(p)]
  {
    if q != [] {
      TokensAppend(q[1..], p);
      assert (q + [p])[1..] == q[1..] + [p];
    }
  }

  function Known(o: Option<int>): seq<int> {
    if o.Some? then [o.value] else []
  }

  /** Reports not yet read, the report that is due, and packets without data in the queue. */
  function UnderWay(s: State): seq<int> {
    Known(s.endTs) + Known(s.expectEndTs) + Tokens(s.queue)
  }

  function Answers(pairs: seq<(nat, int)>): (r: seq<int>)
    ensures |r| == |pairs| && forall i | 0 <= i < |r| :: r[i] == pairs[i].1
  {
    seq(|pairs|, i requires 0 <= i < |pairs| => pairs[i].1)
  }

  function Flushed(a: seq<int>): (n: nat)
    ensures n <= |a|
  {
    if a == [] then 0 else Flushed(a[..|a| - 1]) + if a[|a| - 1] == NO_FLUSH then 0 else 1
  }

  /** Flushes are numbered in the order in which they are accepted. */
  ghost predicate Numbered(a: seq<int>) {
    forall p | 0 <= p < |a| && a[p] != NO_FLUSH :: a[p] == Flushed(a[..p])
  }

  /** Everything accepted is under way or was read as an answer, in this order. */
  ghost predicate Inv(s: State) {
    Balanced(s) && Numbered(s.accepted) && Flushed(s.accepted) == s.flushes && Places(s)
  }

  predicate Balanced(s: State) {
    && s.accepted == Answers(s.pairs) + UnderWay(s)
    && forall i | 0 <= i < |s.pairs| :: s.pairs[i].0 == i
  }

  predicate Places(s: State) {
    && (s.demux.Running? ==> |s.pairs| == s.flushes)
    && (s.demux.Waiting? ==> s.demux.k == |s.pairs| == s.flushes - 1 && !s.sendFinished)
    && |s.pairs| <= s.flushes <= |s.pairs| + 1
    && (s.decoder.Receiving? ==> s.expectEndTs.None?)
    && (s.receiveError <==> s.decoder.Exited?)
    && (s.receiveFinished <==> s.decoder.Exiting? || s.decoder.Exited?)
  }

  lemma NumberedOn(a: seq<int>, x: int)
    requires Numbered(a) && (x == NO_FLUSH || x == Flushed(a))
    ensures Numbered(a + [x]) && Flushed(a + [x]) == Flushed(a) + if x == NO_FLUSH then 0 else 1
  {
    assert (a + [x])[..|a|] == a;
    forall p | 0 <= p < |a + [x]| && (a + [x])[p] != NO_FLUSH ensures (a + [x])[p] == Flushed((a + [x])[..p]) {
      if p < |a| {
        assert (a + [x])[..p] == a[..p];
      }
    }
  }

  lemma Balances(s: State, t: State)
    requires Balanced(s) && t.accepted == s.accepted && t.pairs == s.pairs && UnderWay(t) == UnderWay(s)
    ensures Balanced(t)
  {
  }

  lemma SentUnderWay(s: State, p: Packet)
    requires !s.receiveFinished
    ensures UnderWay(Sent(s, p)) == if p.Ordinary? then UnderWay(s) else UnderWay(s) + [Token(p)]
  {
    TokensAppend(s.queue, p);
  }

  lemma SentBalances(s: State, p: Packet)
    requires Balanced(s)
    ensures Balanced(Sent(s, p))
  {
    if !s.receiveFinished {
      SentUnderWay(s, p);
      if p.Ordinary? {
        Balances(s, Sent(s, p));
      } else {
        Append(Answers(s.pairs), UnderWay(s), Token(p));
      }
    }
  }

  lemma Append(a: seq<int>, b: seq<int>, x: int)
    ensures (a + b) + [x] == a + (b + [x])
  {
  }

  lemma SentKeepsInv(s: State, p: Packet)
    requires Inv(s) && s.demux.Running? && !s.sendFinished && (p.Flush? ==> p.k == s.flushes)
    ensures !p.Flush? ==> Inv(Sent(s, p))
    ensures p.Flush? && !s.receiveFinished ==> Inv(Sent(s, p).(demux := Waiting(s.flushes), flushes := s.flushes + 1))
  {
    SentBalances(s, p);
    if !p.Ordinary? {
      NumberedOn(s.accepted, Token(p));
    }
    if p.Flush? {
      Balances(Sent(s, p), Sent(s, p).(demux := Waiting(s.flushes), flushes := s.flushes + 1));
    }
  }

  lemma AnswersOn(pairs: seq<(nat, int)>, x: (nat, int))
    ensures Answers(pairs + [x]) == Answers(pairs) + [x.1]
  {
  }

  lemma GetEndBalances(s: State)
    requires Balanced(s) && s.endTs.Some? && s.demux.Waiting? && s.demux.k == |s.pairs|
    ensures Balanced(Apply(s, GetEnd))
  {
    var t := Apply(s, GetEnd);
    AnswersOn(s.pairs, (s.demux.k, s.endTs.value));
    assert Known(s.endTs) == [s.endTs.value] && Known(t.endTs) == [];
    Regroup(Answers(s.pairs), s.endTs.value, Known(s.expectEndTs), Tokens(s.queue));
  }

  lemma Regroup(a: seq<int>, x: int, b: seq<int>, c: seq<int>)
    ensures a + ([x] + b + c) == (a + [x]) + ([] + b + c)
  {
  }

  lemma EnterUnderWay(s: State)
    requires s.expectEndTs.Some? ==> s.endTs.None?
    ensures Enabled(s, Enter) ==> UnderWay(Apply(s, Enter)) == UnderWay(s)
  {
  }

  lemma TakeUnderWay(s: State)
    requires s.expectEndTs.None? && s.queue != []
    ensures UnderWay(Taken(s)) == UnderWay(s)
  {
  }

  lemma DecoderStepBalances(s: State, a: Action)
    requires Inv(s) && Enabled(s, a) && (ByDecoder(a) || a.Freeze? || a.Unfreeze? || a.SendFinish?)
    ensures Balanced(Apply(s, a)) && Apply(s, a).accepted == s.accepted && Apply(s, a).flushes == s.flushes
  {
    if a.Enter? {
      EnterUnderWay(s);
    } else if a.Take? {
      TakeUnderWay(s);
    } else {
      assert UnderWay(Apply(s, a)) == UnderWay(s);
    }
  }

  lemma DecoderStepKeepsPlaces(s: State, a: Action)
    requires Places(s) && Enabled(s, a) && (ByDecoder(a) || a.Freeze? || a.Unfreeze? || a.SendFinish?)
    ensures Places(Apply(s, a))
  {
  }

  lemma GetEndKeepsInv(s: State)
    requires Inv(s) && Enabled(s, GetEnd)
    ensures Inv(Apply(s, GetEnd))
  {
    if s.endTs.Some? {
      GetEndBalances(s);
    } else {
      Balances(s, Apply(s, GetEnd));
    }
  }

  lemma FlushKeepsInv(s: State)
    requires Inv(s) && Enabled(s, SendFlush)
    ensures Inv(Apply(s, SendFlush))
  {
    SentKeepsInv(s, Flush(s.flushes));
    if s.receiveFinished {
      Balances(s, Apply(s, SendFlush));
    }
  }

  lemma StepKeepsInv(s: State, a: Action)
    requires Inv(s) && Enabled(s, a)
    ensures Inv(Apply(s, a))
  {
    match a
    case SendOrdinary => SentKeepsInv(s, Ordinary);
    case SendBare => SentKeepsInv(s, Bare);
    case SendFlush => FlushKeepsInv(s);
    case GetEnd => GetEndKeepsInv(s);
    case _ =>
      DecoderStepBalances(s, a);
      DecoderStepKeepsPlaces(s, a);
  }

  lemma {:induction false} RunKeepsInv(s: State, acts: seq<Action>)
    requires Inv(s) && CanRun(s, acts)
    ensures Inv(Run(s, acts))
    decreases |acts|
  {
    if acts != [] {
      StepKeepsInv(s, acts[0]);
      RunKeepsInv(Apply(s, acts[0]), acts[1..]);
    }
  }

  lemma ReachableInv(t: State)
    requires Reachable(t)
    ensures Inv(t)
  {
    var acts :| CanRun(START, acts) && Run(START, acts) == t;
    RunKeepsInv(START, acts);
  }

  // ----- which answer belongs to which flush

  lemma {:induction false} AllFlushed(a: seq<int>)
    ensures NO_FLUSH !in a <==> Flushed(a) == |a|
  {
    if a != [] {
      AllFlushed(a[..|a| - 1]);
      assert a == a[..|a| - 1] + [a[|a| - 1]];
    }
  }

  lemma {:induction false} FlushedGrows(a: seq<int>, p: nat)
    requires p <= |a|
    ensures Flushed(a[..p]) <= Flushed(a)
  {
    if p < |a| {
      FlushedGrows(a[..|a| - 1], p);
      assert a[..|a| - 1][..p] == a[..p];
    } else {
      assert a[..p] == a;
    }
  }

  /** The flush accepted at place `p` has number `p` exactly if only flushes came before it, and
      otherwise some other token has the place of its number. */
  lemma PlaceIsNumber(a: seq<int>, p: nat)
    requires Numbered(a) && p < |a| && a[p] != NO_FLUSH
    ensures 0 <= a[p] <= p && (a[a[p]] == a[p] <==> NO_FLUSH !in a[..p])
  {
    var n := Flushed(a[..p]);
    AllFlushed(a[..p]);
    if n < p {
      AllFlushed(a[..n]);
      FlushedGrows(a[..p], n + 1);
      assert a[..p][..n + 1] == a[..n + 1] && a[..n + 1][..n] == a[..n];
    }
  }

  /** In every run: the n-th answer read is that to the n-th packet without data accepted, flush
      or not. So a flush is given the end of another exactly if, before it was accepted, a packet
      without data was accepted that was no flush. */
  lemma MispairedIff(t: State, n: nat, p: nat)
    requires Reachable(t) && n < |t.pairs| && p < |t.accepted| && t.accepted[p] == n
    ensures |t.pairs| <= |t.accepted| && t.pairs[n] == (n, t.accepted[n])
    ensures t.pairs[n].1 != n <==> NO_FLUSH in t.accepted[..p]
  {
    ReachableInv(t);
    AnswersAre(t);
    PlaceIsNumber(t.accepted, p);
  }

  /** In every run in which all packets but flushes carry data or side data: a demuxer that waits
      has exactly one token under way, and one that does not wait has none; the decoder never
      waits to report an end; each flush has been answered with its own end. */
  lemma OneTokenWhileWaiting(t: State)
    requires Reachable(t) && NO_FLUSH !in t.accepted
    ensures t.demux.Waiting? ==> UnderWay(t) == [t.demux.k]
    ensures t.demux.Running? ==> UnderWay(t) == []
    ensures t.decoder.Working? ==> Enabled(t, Enter)
    ensures forall i | 0 <= i < |t.pairs| :: t.pairs[i] == (i, i)
  {
    ReachableInv(t);
    InSequence(t.accepted);
    AnswersAre(t);
    LastOnes(t.accepted, |t.pairs|);
    OneReport(t);
  }

  lemma LastOnes(a: seq<int>, n: nat)
    requires n <= |a| && forall i | 0 <= i < |a| :: a[i] == i
    ensures |a| == n ==> a[n..] == []
    ensures |a| == n + 1 ==> a[n..] == [n]
  {
  }

  lemma OneReport(t: State)
    requires |UnderWay(t)| <= 1
    ensures t.expectEndTs.Some? ==> t.endTs.None?
  {
  }

  lemma InSequence(a: seq<int>)
    requires Numbered(a) && NO_FLUSH !in a
    ensures Flushed(a) == |a| && forall i | 0 <= i < |a| :: a[i] == i
  {
    AllFlushed(a);
    forall i | 0 <= i < |a| ensures a[i] == i {
      assert a[i] in a && forall x | x in a[..i] :: x in a;
      AllFlushed(a[..i]);
    }
  }

  lemma AnswersAre(t: State)
    requires Balanced(t)
    ensures |t.pairs| <= |t.accepted| && UnderWay(t) == t.accepted[|t.pairs|..]
    ensures forall i | 0 <= i < |t.pairs| :: t.pairs[i] == (i, t.accepted[i])
  {
    forall i | 0 <= i < |t.pairs| ensures t.pairs[i] == (i, t.accepted[i]) {
      assert t.accepted[i] == Answers(t.pairs)[i];
    }
  }

  // ----- the end of the wait

  /** The decoder sits in front of a frozen queue and has not reported. */
  predicate Stuck(t: State) {
    t.decoder.Receiving? && t.frozen && t.endTs.None?
  }

  /** A demuxer that waits can be answered, or its decoder can take a step, exactly unless the
      decoder sits in front of a frozen queue with no answer ready. */
  lemma WaitMovesIff(t: State)
    requires Reachable(t) && t.demux.Waiting?
    ensures (Enabled(t, GetEnd) || exists a: Action :: ByDecoder(a) && Enabled(t, a)) <==> !Stuck(t)
  {
    ReachableInv(t);
    assert UnderWay(t) != [];
    match t.decoder
    case Working => assert ByDecoder(Leave) && Enabled(t, Leave);
    case Receiving =>
      if !Stuck(t) && t.endTs.None? {
        assert ByDecoder(Take) && Enabled(t, Take);
      }
    case Exiting => assert ByDecoder(SetError) && Enabled(t, SetError);
    case Exited =>
  }

  /** The update may choke the demuxer after `waiter_wait` has let it through, so that it waits
      for a decoder whose queue is frozen. */
  lemma StuckIsReached() returns (t: State)
    ensures Reachable(t) && t.demux.Waiting? && Stuck(t)
  {
    t := START;
    assert CanRun(t, []) && Run(t, []) == t;
    ReachOn(t, SendFlush); t := Apply(t, SendFlush);
    ReachOn(t, Enter); t := Apply(t, Enter);
    ReachOn(t, Freeze); t := Apply(t, Freeze);
  }

  /** The steps the decoder may still take before the demuxer must have its answer. */
  function StepsLeft(s: State): nat {
    2 * |s.queue| + match s.decoder case Working => 3 case Receiving => 2 case Exiting => 1 case Exited => 0
  }

  lemma DecoderStepNearer(t: State, a: Action)
    requires Enabled(t, a) && ByDecoder(a)
    ensures var u := Apply(t, a); StepsLeft(u) < StepsLeft(t) && u.frozen == t.frozen && u.demux == t.demux
  {
  }

  lemma {:induction false} DecoderSteps(t: State, acts: seq<Action>)
    requires Inv(t) && CanRun(t, acts) && forall a | a in acts :: ByDecoder(a)
    ensures Inv(Run(t, acts)) && StepsLeft(Run(t, acts)) + |acts| <= StepsLeft(t)
    ensures Run(t, acts).frozen == t.frozen && Run(t, acts).demux == t.demux
    decreases |acts|
  {
    if acts != [] {
      assert acts[0] in acts && forall a | a in acts[1..] :: a in acts;
      StepKeepsInv(t, acts[0]);
      DecoderStepNearer(t, acts[0]);
      DecoderSteps(Apply(t, acts[0]), acts[1..]);
    }
  }

  lemma {:induction false} ReachRun(t: State, acts: seq<Action>)
    requires Reachable(t) && CanRun(t, acts)
    ensures Reachable(Run(t, acts))
    decreases |acts|
  {
    if acts != [] {
      ReachOn(t, acts[0]);
      ReachRun(Apply(t, acts[0]), acts[1..]);
    }
  }

  /** While the queue is not frozen the wait ends: the decoder cannot take more than `StepsLeft`
      steps, and whenever it can take no more the demuxer has its answer. */
  lemma WaitEnds(t: State, acts: seq<Action>)
    requires Reachable(t) && t.demux.Waiting? && !t.frozen
    requires CanRun(t, acts) && forall a | a in acts :: ByDecoder(a)
    ensures |acts| <= StepsLeft(t)
    ensures Enabled(Run(t, acts), GetEnd) || exists a: Action :: ByDecoder(a) && Enabled(Run(t, acts), a)
  {
    ReachableInv(t);
    DecoderSteps(t, acts);
    ReachRun(t, acts);
    WaitMovesIff(Run(t, acts));
  }

  // ----- the finish

  /** The demuxer can always go on: it flushes, which fails exactly if the decoder reads no more,
      and it can finish the decoder unless it waits; its wait fails exactly if the decoder has
      exited without an answer. */
  lemma DemuxerGoesOn(t: State)
    requires Reachable(t)
    ensures t.demux.Running? && !t.sendFinished ==>
      && Enabled(t, SendFlush)
      && (Apply(t, SendFlush).demux == Failed <==> t.decoder.Exiting? || t.decoder.Exited?)
      && (!t.decoder.Exiting? && !t.decoder.Exited? ==> Apply(t, SendFlush).demux == Waiting(t.flushes))
    ensures (t.demux.Running? || t.demux.Failed?) && !t.sendFinished ==> Enabled(t, SendFinish)
    ensures Enabled(t, GetEnd) ==>
      && (Apply(t, GetEnd).demux == Failed <==> t.decoder.Exited? && t.endTs == None)
      && (Apply(t, GetEnd).demux != Failed ==> Apply(t, GetEnd).demux == Running)
  {
    ReachableInv(t);
  }

  /** To a decoder that reads no more, a packet is as good as the finish. */
  lemma RefusedIsFinish(t: State)
    requires t.demux.Running? && !t.sendFinished && t.receiveFinished
    ensures Apply(t, SendOrdinary) == Apply(t, SendBare) == Apply(t, SendFinish)
  {
  }

  /** After the finish the decoder is never held up: unless it is frozen once more it takes no more
      than `StepsLeft` steps, and can go on until it has exited. */
  lemma FinishIsRead(t: State, acts: seq<Action>)
    requires Reachable(t) && Enabled(t, SendFinish)
    requires CanRun(Apply(t, SendFinish), acts) && forall a | a in acts :: ByDecoder(a)
    ensures var u := Apply(t, SendFinish);
      && |acts| <= StepsLeft(u)
      && (Run(u, acts).decoder.Exited? || exists a: Action :: ByDecoder(a) && Enabled(Run(u, acts), a))
  {
    var u := Apply(t, SendFinish);
    ReachOn(t, SendFinish);
    ReachableInv(u);
    DecoderSteps(u, acts);
    StaysFinished(u, acts);
    var v := Run(u, acts);
    match v.decoder
    case Working => assert ByDecoder(Leave) && Enabled(v, Leave);
    case Receiving =>
      if v.queue != [] {
        assert ByDecoder(Take) && Enabled(v, Take);
      } else {
        assert ByDecoder(ReadEof) && Enabled(v, ReadEof);
      }
    case Exiting => assert ByDecoder(SetError) && Enabled(v, SetError);
    case Exited =>
  }

  lemma {:induction false} StaysFinished(s: State, acts: seq<Action>)
    requires s.sendFinished && CanRun(s, acts)
    ensures Run(s, acts).sendFinished
    decreases |acts|
  {
    if acts != [] {
      StaysFinished(Apply(s, acts[0]), acts[1..]);
    }
  }

  predicate NothingLeft(s: State) {
    s.receiveFinished ==> s.sendFinished && s.queue == []
  }

  lemma {:induction false} RunLeavesNothing(s: State, acts: seq<Action>)
    requires NothingLeft(s) && CanRun(s, acts) && Leave !in acts
    ensures NothingLeft(Run(s, acts))
    decreases |acts|
  {
    if acts != [] {
      RunLeavesNothing(Apply(s, acts[0]), acts[1..]);
    }
  }

  /** A decoder that does not stop by itself exits only when it has been finished and has taken
      every packet that was sent. */
  lemma AllTaken(acts: seq<Action>)
    requires CanRun(START, acts) && Leave !in acts
    ensures var t := Run(START, acts);
      t.decoder.Exiting? || t.decoder.Exited? ==> t.sendFinished && t.queue == []
  {
    RunLeavesNothing(START, acts);
    var t := Run(START, acts);
    assert Reachable(t);
    ReachableInv(t);
  }
}

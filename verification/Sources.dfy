/** Which demuxers and filtergraphs a node depends on: following source links up, and
    destination lists down, as the scheduler does when it decides who may run. */
module Sources {
  import opened Topology
  import opened Acyclic

  /** The state of one filtergraph input: its sender will send no more; its receiver wants no more. */
  datatype FilterIn = FilterIn(sendFinished: bool, receiveFinished: bool)

  datatype FilterState = FilterState(
    inputs: seq<FilterIn>,
    nbFinishedSend: nat,
    nbFinishedReceive: nat,
    controlSendFinished: bool,      // the control stream of the input queue, both ends
    controlReceiveFinished: bool,
    bestInput: nat,                 // the input wanted next; the number of inputs if none
    exited: bool)

  function Sent(x: FilterState): (bs: seq<bool>)
    ensures |bs| == |x.inputs| && forall j | 0 <= j < |bs| :: bs[j] == x.inputs[j].sendFinished
  {
    seq(|x.inputs|, j requires 0 <= j < |x.inputs| => x.inputs[j].sendFinished)
  }

  function Received(x: FilterState): (bs: seq<bool>)
    ensures |bs| == |x.inputs| && forall j | 0 <= j < |bs| :: bs[j] == x.inputs[j].receiveFinished
  {
    seq(|x.inputs|, j requires 0 <= j < |x.inputs| => x.inputs[j].receiveFinished)
  }

  function Count(bs: seq<bool>): (n: nat)
    ensures n <= |bs|
  {
    if bs == [] then 0 else Count(bs[..|bs| - 1]) + if bs[|bs| - 1] then 1 else 0
  }

  lemma {:induction false} CountSet(bs: seq<bool>, i: nat)
    requires i < |bs| && !bs[i]
    ensures Count(bs[i := true]) == Count(bs) + 1
  {
    var n := |bs| - 1;
    if i < n {
      CountSet(bs[..n], i);
      assert bs[i := true][..n] == bs[..n][i := true];
    } else {
      assert bs[i := true][..n] == bs[..n];
    }
  }

  lemma {:induction false} CountFull(bs: seq<bool>)
    ensures Count(bs) == |bs| <==> forall i | 0 <= i < |bs| :: bs[i]
  {
    if bs != [] {
      CountFull(bs[..|bs| - 1]);
    }
  }

  /** The counters agree with the inputs, and each end of the control stream is finished
      exactly when that end of every actual input is. */
  ghost predicate InputsCounted(x: FilterState) {
    && x.nbFinishedSend == Count(Sent(x))
    && x.nbFinishedReceive == Count(Received(x))
    && (x.controlSendFinished <==> x.inputs != [] && forall j | 0 <= j < |x.inputs| :: x.inputs[j].sendFinished)
    && (x.controlReceiveFinished <==> x.inputs != [] && forall j | 0 <= j < |x.inputs| :: x.inputs[j].receiveFinished)
  }

  /** What `send_to_filter` does to the state on the first finish of input `j`. */
  function SendFinished(x: FilterState, j: nat): FilterState
    requires j < |x.inputs|
  {
    if x.inputs[j].sendFinished then x
    else x.(inputs := x.inputs[j := x.inputs[j].(sendFinished := true)],
            nbFinishedSend := x.nbFinishedSend + 1,
            controlSendFinished := x.controlSendFinished || x.nbFinishedSend + 1 == |x.inputs|)
  }

  /** What `sch_filter_receive_finish` does to the state on the first finish of input `j`. */
  function ReceiveFinished(x: FilterState, j: nat): FilterState
    requires j < |x.inputs|
  {
    if x.inputs[j].receiveFinished then x
    else x.(inputs := x.inputs[j := x.inputs[j].(receiveFinished := true)],
            nbFinishedReceive := x.nbFinishedReceive + 1,
            controlReceiveFinished := x.controlReceiveFinished || x.nbFinishedReceive + 1 == |x.inputs|)
  }

  lemma SendFinishKeepsCounts(x: FilterState, j: nat)
    requires InputsCounted(x) && j < |x.inputs|
    ensures InputsCounted(SendFinished(x, j))
  {
    var s := SendFinished(x, j);
    if !x.inputs[j].sendFinished {
      CountSet(Sent(x), j);
      assert Sent(s) == Sent(x)[j := true] && Received(s) == Received(x);
      CountFull(Sent(s));
    }
  }

  lemma ReceiveFinishKeepsCounts(x: FilterState, j: nat)
    requires InputsCounted(x) && j < |x.inputs|
    ensures InputsCounted(ReceiveFinished(x, j))
  {
    var r := ReceiveFinished(x, j);
    if !x.inputs[j].receiveFinished {
      CountSet(Received(x), j);
      assert Received(r) == Received(x)[j := true] && Sent(r) == Sent(x);
      CountFull(Received(r));
    }
  }

  lemma SameInputsSameCounts(x: FilterState, bestInput: nat, exited: bool)
    requires InputsCounted(x)
    ensures InputsCounted(x.(bestInput := bestInput)) && InputsCounted(x.(exited := exited))
  {
    assert Sent(x.(bestInput := bestInput)) == Sent(x) && Received(x.(bestInput := bestInput)) == Received(x);
    assert Sent(x.(exited := exited)) == Sent(x) && Received(x.(exited := exited)) == Received(x);
  }

  /** What can be choked. */
  datatype Task = DemuxTask(idx: nat) | FilterTask(idx: nat)

  predicate ValidTask(g: Graph, t: Task) {
    match t
    case DemuxTask(i) => i < |g.demux|
    case FilterTask(f) => f < |g.filters|
  }

  predicate Fits(g: Graph, fs: seq<FilterState>) {
    |fs| == |g.filters| &&
    forall f | 0 <= f < |fs| :: |fs[f].inputs| == |g.filters[f].inputs| && fs[f].bestInput <= |fs[f].inputs|
  }

  // ----- up: the root source of a node

  datatype Step = At(task: Task) | Up(next: Source) | Nowhere

  /** One step from a node towards the task that has to run for it to get data. */
  function NextUp(g: Graph, fs: seq<FilterState>, s: Source): Step {
    match s
    case Demuxed(i, _) => At(DemuxTask(i))
    case Decoded(i, _) => if i < |g.dec| && g.dec[i].src.Some? then Up(g.dec[i].src.value) else Nowhere
    case Encoded(i) => if i < |g.enc| && g.enc[i].src.Some? then Up(g.enc[i].src.value) else Nowhere
    case Filtered(f, _) =>
      if f < |g.filters| && f < |fs| then
        var b := fs[f].bestInput;
        if b < |g.filters[f].inputs| then
          (if g.filters[f].inputs[b].Some? then Up(g.filters[f].inputs[b].value) else Nowhere)
        else At(FilterTask(f))
      else Nowhere
  }

  function RootWithin(g: Graph, fs: seq<FilterState>, s: Source, fuel: nat): Option<Task>
    decreases fuel
  {
    match NextUp(g, fs, s)
    case At(t) => Some(t)
    case Up(x) => if fuel == 0 then None else RootWithin(g, fs, x, fuel - 1)
    case Nowhere => None
  }

  /** The demuxer or filtergraph that following source links and wanted inputs leads to. */
  ghost function Root(g: Graph, fs: seq<FilterState>, s: Source): Option<Task> {
    if fuel: nat :| RootWithin(g, fs, s, fuel).Some? then RootWithin(g, fs, s, fuel) else None
  }

  lemma {:induction false} RootAnyFuel(g: Graph, fs: seq<FilterState>, s: Source, a: nat, b: nat)
    requires RootWithin(g, fs, s, a).Some? && RootWithin(g, fs, s, b).Some?
    ensures RootWithin(g, fs, s, a) == RootWithin(g, fs, s, b)
    decreases a
  {
    match NextUp(g, fs, s)
    case Up(x) => RootAnyFuel(g, fs, x, a - 1, b - 1);
    case _ =>
  }

  lemma RootFuel(g: Graph, fs: seq<FilterState>, s: Source) returns (fuel: nat)
    requires Root(g, fs, s).Some?
    ensures RootWithin(g, fs, s, fuel) == Root(g, fs, s)
  {
    fuel :| RootWithin(g, fs, s, fuel).Some?;
    forall a: nat | RootWithin(g, fs, s, a).Some? ensures RootWithin(g, fs, s, a) == RootWithin(g, fs, s, fuel) {
      RootAnyFuel(g, fs, s, a, fuel);
    }
  }

  lemma RootUnfolds(g: Graph, fs: seq<FilterState>, s: Source)
    ensures Root(g, fs, s) ==
      match NextUp(g, fs, s) case At(t) => Some(t) case Up(x) => Root(g, fs, x) case Nowhere => None
  {
    match NextUp(g, fs, s)
    case At(t) =>
      assert RootWithin(g, fs, s, 0).Some?;
    case Nowhere =>
    case Up(x) =>
      if fuel: nat :| RootWithin(g, fs, x, fuel).Some? {
        assert RootWithin(g, fs, s, fuel + 1).Some?;
        forall a: nat | RootWithin(g, fs, s, a).Some? ensures RootWithin(g, fs, s, a) == RootWithin(g, fs, x, fuel) {
          RootAnyFuel(g, fs, s, a, fuel + 1);
        }
        forall a: nat | RootWithin(g, fs, x, a).Some? ensures RootWithin(g, fs, x, a) == RootWithin(g, fs, x, fuel) {
          RootAnyFuel(g, fs, x, a, fuel);
        }
      } else {
        forall a: nat ensures RootWithin(g, fs, s, a).None? {
          if RootWithin(g, fs, s, a).Some? {
            assert RootWithin(g, fs, x, a - 1).Some?;
          }
        }
      }
  }

  /** Roots in terms of the links: a demuxer is its own, a codec has that of its source, and a
      filtergraph that of its input `best_input`, or is its own if it wants none. */
  lemma RootIs(g: Graph, fs: seq<FilterState>, s: Source)
    requires ValidSource(g, s) && Fits(g, fs)
    ensures s.Demuxed? ==> Root(g, fs, s) == Some(DemuxTask(s.idx))
    ensures s.Decoded? && g.dec[s.idx].src.Some? ==> Root(g, fs, s) == Root(g, fs, g.dec[s.idx].src.value)
    ensures s.Encoded? && g.enc[s.idx].src.Some? ==> Root(g, fs, s) == Root(g, fs, g.enc[s.idx].src.value)
    ensures s.Filtered? ==>
      var b := fs[s.idx].bestInput;
      if b == |g.filters[s.idx].inputs| then Root(g, fs, s) == Some(FilterTask(s.idx))
      else g.filters[s.idx].inputs[b].Some? ==> Root(g, fs, s) == Root(g, fs, g.filters[s.idx].inputs[b].value)
  {
    RootUnfolds(g, fs, s);
  }

  // ----- down: the filtergraphs a node feeds

  /** What the downward walk visits next from a sink: the first destination of every decoder
      output, every destination of an encoder. */
  predicate NextDown(g: Graph, k: Sink, n: Sink) {
    match k
    case ToDec(i) =>
      i < |g.dec| && exists o :: 0 <= o < |g.dec[i].outputs| && g.dec[i].outputs[o] != [] && g.dec[i].outputs[o][0] == n
    case ToEnc(i) => i < |g.enc| && n in g.enc[i].dst
    case _ => false
  }

  ghost predicate ReachesWithin(g: Graph, k: Sink, f: nat, fuel: nat)
    decreases fuel
  {
    || (k.ToFilter? && k.idx == f)
    || (fuel > 0 && exists n :: NextDown(g, k, n) && ReachesWithin(g, n, f, fuel - 1))
  }

  /** Filtergraph `f` is met going down from `k`. */
  ghost predicate Reaches(g: Graph, k: Sink, f: nat) {
    exists fuel: nat :: ReachesWithin(g, k, f, fuel)
  }

  lemma ReachesUnfolds(g: Graph, k: Sink, f: nat)
    ensures Reaches(g, k, f) <==> (k.ToFilter? && k.idx == f) || exists n :: NextDown(g, k, n) && Reaches(g, n, f)
  {
    if k.ToFilter? && k.idx == f {
      assert ReachesWithin(g, k, f, 0);
    }
    if n :| NextDown(g, k, n) && Reaches(g, n, f) {
      var fuel: nat :| ReachesWithin(g, n, f, fuel);
      assert ReachesWithin(g, k, f, fuel + 1);
    }
    if fuel: nat :| ReachesWithin(g, k, f, fuel) && !(k.ToFilter? && k.idx == f) {
      var n :| NextDown(g, k, n) && ReachesWithin(g, n, f, fuel - 1);
      assert Reaches(g, n, f);
    }
  }

  /** And the filtergraphs met going down: a filtergraph is met at its own inputs; below a decoder
      those below the first destination of an output, below an encoder those below any. */
  lemma ReachesIs(g: Graph, k: Sink, f: nat)
    requires ValidSink(g, k)
    ensures k.ToMux? ==> !Reaches(g, k, f)
    ensures k.ToFilter? ==> (Reaches(g, k, f) <==> k.idx == f)
    ensures k.ToDec? ==> (Reaches(g, k, f) <==>
      exists o ::
        0 <= o < |g.dec[k.idx].outputs| && g.dec[k.idx].outputs[o] != [] && Reaches(g, g.dec[k.idx].outputs[o][0], f))
    ensures k.ToEnc? ==> (Reaches(g, k, f) <==> exists n :: n in g.enc[k.idx].dst && Reaches(g, n, f))
  {
    ReachesUnfolds(g, k, f);
    if k.ToDec? {
      forall o | 0 <= o < |g.dec[k.idx].outputs| && g.dec[k.idx].outputs[o] != []
        ensures NextDown(g, k, g.dec[k.idx].outputs[o][0])
      {
      }
    }
  }

  // ----- how far a walk can still go

  /** The graphs the start-up checks let through, with the layering those checks found. */
  ghost predicate Walkable(g: Graph, layers: map<nat, nat>) {
    && Ready(g)
    && CodecLoopFree(g)
    && Layered(FeedsOf(g), layers)
    && forall f | 0 <= f < |g.filters| :: f in layers
  }

  /** One more than the layer of the filtergraph above a node; 0 below a demuxer. */
  function Layer(g: Graph, layers: map<nat, nat>, s: Source): nat {
    var up := AboveInput(g, Some(s));
    if up.Some? && up.value in layers then layers[up.value] + 1 else 0
  }

  /** The codecs between a node and the filtergraph or demuxer above it. */
  function Height(g: Graph, s: Source): nat {
    if Ends(g, s, Codecs(g)) then Steps(g, s, Codecs(g)) else 0
  }

  ghost predicate Lower(g: Graph, layers: map<nat, nat>, a: Source, b: Source) {
    || Layer(g, layers, a) < Layer(g, layers, b)
    || (Layer(g, layers, a) == Layer(g, layers, b) && Height(g, a) < Height(g, b))
  }

  /** A step up stays in the graph, and is downwards in the order of the walks. */
  ghost predicate GoesUp(g: Graph, layers: map<nat, nat>, n: Step, s: Source) {
    match n
    case At(t) => ValidTask(g, t)
    case Up(x) => ValidSource(g, x) && Lower(g, layers, x, s)
    case Nowhere => false
  }

  lemma StepUpDec(g: Graph, layers: map<nat, nat>, fs: seq<FilterState>, s: Source)
    requires Ready(g) && CodecLoopFree(g) && ValidSource(g, s) && s.Decoded?
    ensures GoesUp(g, layers, NextUp(g, fs, s), s)
  {
    assert SourceAgrees(g, ToDec(s.idx));
    CodecStep(g, layers, s, g.dec[s.idx].src.value);
  }

  lemma StepUpEnc(g: Graph, layers: map<nat, nat>, fs: seq<FilterState>, s: Source)
    requires Ready(g) && CodecLoopFree(g) && ValidSource(g, s) && s.Encoded?
    ensures GoesUp(g, layers, NextUp(g, fs, s), s)
  {
    assert SourceAgrees(g, ToEnc(s.idx));
    CodecStep(g, layers, s, g.enc[s.idx].src.value);
  }

  lemma StepUpFilter(g: Graph, layers: map<nat, nat>, fs: seq<FilterState>, s: Source)
    requires Walkable(g, layers) && Fits(g, fs) && ValidSource(g, s) && s.Filtered?
    ensures GoesUp(g, layers, NextUp(g, fs, s), s)
  {
    var b := fs[s.idx].bestInput;
    if b < |g.filters[s.idx].inputs| {
      InputEnds(g, s.idx, b);
      InputStep(g, layers, s, b);
    }
  }

  lemma StepUp(g: Graph, layers: map<nat, nat>, fs: seq<FilterState>, s: Source)
    requires Walkable(g, layers) && Fits(g, fs) && ValidSource(g, s)
    ensures GoesUp(g, layers, NextUp(g, fs, s), s)
  {
    match s
    case Demuxed(_, _) =>
    case Decoded(_, _) => StepUpDec(g, layers, fs, s);
    case Encoded(_) => StepUpEnc(g, layers, fs, s);
    case Filtered(_, _) => StepUpFilter(g, layers, fs, s);
  }

  lemma InputStep(g: Graph, layers: map<nat, nat>, s: Source, b: nat)
    requires s.Filtered? && s.idx < |g.filters| && b < |g.filters[s.idx].inputs| && g.filters[s.idx].inputs[b].Some?
    requires Layered(FeedsOf(g), layers) && s.idx in layers
    ensures Layer(g, layers, g.filters[s.idx].inputs[b].value) < Layer(g, layers, s)
  {
    var up := FeedsOf(g);
    assert up[s.idx][b] == AboveInput(g, g.filters[s.idx].inputs[b]);
    if up[s.idx][b].Some? {
      assert FedBy(up, s.idx, up[s.idx][b].value);
    }
  }

  lemma CodecStep(g: Graph, layers: map<nat, nat>, s: Source, x: Source)
    requires Ends(g, s, Codecs(g)) && ((s.Decoded? && g.dec[s.idx].src == Some(x)) || (s.Encoded? &&
        g.enc[s.idx].src == Some(x)))
    ensures Layer(g, layers, x) == Layer(g, layers, s) && Height(g, x) < Height(g, s)
  {
    var n := Codecs(g);
    StepsAnyFuel(g, x, n - 1, n);
    UpEndAnyFuel(g, x, n - 1, n);
  }

  /** The height of the codec behind a sink, from the bottom. */
  function Depth(g: Graph, k: Sink): nat {
    match k
    case ToDec(i) => DepthOf(g, Decoded(i, 0))
    case ToEnc(i) => DepthOf(g, Encoded(i))
    case _ => 0
  }

  function DepthOf(g: Graph, s: Source): nat {
    if Height(g, s) <= Codecs(g) then 1 + Codecs(g) - Height(g, s) else 0
  }

  lemma StepDown(g: Graph, k: Sink, n: Sink)
    requires Linked(g) && CodecLoopFree(g) && ValidSink(g, k) && NextDown(g, k, n)
    ensures ValidSink(g, n) && Depth(g, n) < Depth(g, k)
  {
    var s: Source;
    match k {
      case ToDec(i) =>
        var o :| 0 <= o < |g.dec[i].outputs| && g.dec[i].outputs[o] != [] && g.dec[i].outputs[o][0] == n;
        s := Decoded(i, o);
        OutputsShareSource(g, i, o, 0, Codecs(g));
      case ToEnc(i) => s := Encoded(i);
    }
    assert DestsAgree(g, s) && ValidSource(g, s);
    assert n in Dests(g, s);
    if n.ToDec? || n.ToEnc? {
      HeightBelow(g, s, n);
    }
  }

  lemma HeightBelow(g: Graph, s: Source, n: Sink)
    requires CodecLoopFree(g) && ValidSource(g, s) && ValidSink(g, n) && (n.ToDec? || n.ToEnc?) &&
        SrcOf(g, n) == Some(s)
    requires Linked(g)
    ensures Depth(g, n) < DepthOf(g, s)
  {
    var fuel := Codecs(g);
    var b := if n.ToDec? then Decoded(n.idx, 0) else Encoded(n.idx);
    // one codec more than its source, and never more codecs than there are
    EndsBelow(g, s, n, fuel);
    EndsWithinCodecs(g, b, fuel + 1);
    StepsAnyFuel(g, b, fuel + 1, Steps(g, b, fuel + 1));
    StepsAnyFuel(g, s, fuel, fuel);
    StepsAnyFuel(g, b, fuel, fuel + 1);
  }

  lemma EndsBelow(g: Graph, s: Source, n: Sink, fuel: nat)
    requires ValidSink(g, n) && (n.ToDec? || n.ToEnc?) && SrcOf(g, n) == Some(s) && Ends(g, s, fuel)
    ensures var b := if n.ToDec? then Decoded(n.idx, 0) else Encoded(n.idx);
      Ends(g, b, fuel + 1) && Steps(g, b, fuel + 1) == 1 + Steps(g, s, fuel)
  {
  }

  /** On a walkable graph every node has a root. */
  lemma {:induction false} RootExists(g: Graph, layers: map<nat, nat>, fs: seq<FilterState>, s: Source)
    requires Walkable(g, layers) && Fits(g, fs) && ValidSource(g, s)
    ensures Root(g, fs, s).Some? && ValidTask(g, Root(g, fs, s).value)
    decreases Layer(g, layers, s), Height(g, s)
  {
    StepUp(g, layers, fs, s);
    RootUnfolds(g, fs, s);
    match NextUp(g, fs, s)
    case Up(x) => RootExists(g, layers, fs, x);
    case _ =>
  }

  /** The checks of `start_prepare`. They pass exactly on complete graphs whose filtergraphs do
      not feed each other in a circle, and then every walk of the scheduler terminates. A loop
      made only of decoders and encoders is not looked for, so its absence is assumed. */
  method StartPrepare(g: Graph) returns (ok: bool, ghost layers: map<nat, nat>)
    requires Linked(g) && (Complete(g) ==> CodecLoopFree(g))
    ensures ok <==> Complete(g) && forall f | 0 <= f < |g.filters| :: !CycleAbove(FeedsOf(g), f)
    ensures ok ==> Walkable(g, layers)
  {
    layers := map[];
    if !Complete(g) {
      return false, layers;
    }
    FeedsAreResolved(g);
    ok, layers := CheckAcyclic(g, FeedsOf(g));
  }
}

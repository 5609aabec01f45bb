/** The transcoding graph: demuxers, decoders, filtergraphs, encoders and muxers, and
    the links that connect them before the scheduler starts.

    A `SchedulerNode` of the original is used in two roles. `Source` is a node that
    produces data (what a `src` link names), `Sink` a node that consumes it (what a
    destination list holds). */
module Topology {

  datatype Option<+T> = None | Some(value: T)

  datatype Source =
    | Demuxed(idx: nat, stream: nat)
    | Decoded(idx: nat, output: nat)
    | Filtered(idx: nat, output: nat)
    | Encoded(idx: nat)

  datatype Sink =
    | ToMux(idx: nat, stream: nat)
    | ToDec(idx: nat)
    | ToFilter(idx: nat, input: nat)
    | ToEnc(idx: nat)

  /** A decoder: its source link, and one destination list per output. */
  datatype Dec = Dec(src: Option<Source>, outputs: seq<seq<Sink>>)

  datatype Enc = Enc(src: Option<Source>, dst: seq<Sink>)

  /** A filtergraph: the source of every input, the single destination of every output. */
  datatype Filter = Filter(inputs: seq<Option<Source>>, outputs: seq<Option<Sink>>)

  datatype Graph = Graph(
    demux: seq<seq<seq<Sink>>>,        // demuxer, stream, destinations
    dec: seq<Dec>,
    filters: seq<Filter>,
    enc: seq<Enc>,
    mux: seq<seq<Option<Source>>>)     // muxer, stream, source

  // ----- links in both directions

  predicate ValidSource(g: Graph, s: Source) {
    match s
    case Demuxed(i, j) => i < |g.demux| && j < |g.demux[i]|
    case Decoded(i, o) => i < |g.dec| && o < |g.dec[i].outputs|
    case Filtered(i, o) => i < |g.filters| && o < |g.filters[i].outputs|
    case Encoded(i) => i < |g.enc|
  }

  predicate ValidSink(g: Graph, k: Sink) {
    match k
    case ToMux(i, j) => i < |g.mux| && j < |g.mux[i]|
    case ToDec(i) => i < |g.dec|
    case ToFilter(i, j) => i < |g.filters| && j < |g.filters[i].inputs|
    case ToEnc(i) => i < |g.enc|
  }

  function Dests(g: Graph, s: Source): seq<Sink>
    requires ValidSource(g, s)
  {
    match s
    case Demuxed(i, j) => g.demux[i][j]
    case Decoded(i, o) => g.dec[i].outputs[o]
    case Filtered(i, o) => (match g.filters[i].outputs[o] case None => [] case Some(k) => [k])
    case Encoded(i) => g.enc[i].dst
  }

  function SrcOf(g: Graph, k: Sink): Option<Source>
    requires ValidSink(g, k)
  {
    match k
    case ToMux(i, j) => g.mux[i][j]
    case ToDec(i) => g.dec[i].src
    case ToFilter(i, j) => g.filters[i].inputs[j]
    case ToEnc(i) => g.enc[i].src
  }

  /** The pairs of node types that `sch_connect` accepts. */
  predicate Allowed(s: Source, k: Sink) {
    match s
    case Demuxed(_, _) => k.ToDec? || k.ToMux?
    case Decoded(_, _) => k.ToFilter? || k.ToEnc?
    case Filtered(_, _) => k.ToEnc? || k.ToFilter?
    case Encoded(_) => k.ToMux? || k.ToDec?
  }

  /** These are the pairs in which one side gives what the other takes: packets come from demuxers
      and encoders and go to decoders and muxers, and frames take the other ways. */
  lemma AllowedIff(s: Source, k: Sink)
    ensures Allowed(s, k) <==> ((s.Demuxed? || s.Encoded?) == (k.ToDec? || k.ToMux?))
  {
  }

  ghost predicate DestsAgree(g: Graph, s: Source) {
    ValidSource(g, s) ==>
      forall k | k in Dests(g, s) :: ValidSink(g, k) && Allowed(s, k) && SrcOf(g, k) == Some(s)
  }

  ghost predicate SourceAgrees(g: Graph, k: Sink) {
    ValidSink(g, k) && SrcOf(g, k).Some? ==>
      var s := SrcOf(g, k).value;
      ValidSource(g, s) && k in Dests(g, s)
  }

  /** Destination lists and source links describe the same set of connections. */
  ghost predicate Linked(g: Graph) {
    && (forall s :: DestsAgree(g, s))
    && (forall k :: SourceAgrees(g, k))
  }

  // ----- connecting

  /** What `sch_connect` asserts of its arguments. */
  predicate CanConnect(g: Graph, s: Source, k: Sink) {
    && ValidSource(g, s) && ValidSink(g, k) && Allowed(s, k)
    && SrcOf(g, k).None?
    && (s.Filtered? ==> g.filters[s.idx].outputs[s.output].None?)
  }

  function AddDest(g: Graph, s: Source, k: Sink): (r: Graph)
    requires ValidSource(g, s)
  {
    match s
    case Demuxed(i, j) => g.(demux := g.demux[i := g.demux[i][j := g.demux[i][j] + [k]]])
    case Decoded(i, o) =>
      var d := g.dec[i];
      g.(dec := g.dec[i := d.(outputs := d.outputs[o := d.outputs[o] + [k]])])
    case Filtered(i, o) =>
      var f := g.filters[i];
      g.(filters := g.filters[i := f.(outputs := f.outputs[o := Some(k)])])
    case Encoded(i) =>
      var e := g.enc[i];
      g.(enc := g.enc[i := e.(dst := e.dst + [k])])
  }

  function SetSource(g: Graph, k: Sink, s: Source): (r: Graph)
    requires ValidSink(g, k)
  {
    match k
    case ToMux(i, j) => g.(mux := g.mux[i := g.mux[i][j := Some(s)]])
    case ToDec(i) => g.(dec := g.dec[i := g.dec[i].(src := Some(s))])
    case ToFilter(i, j) =>
      var f := g.filters[i];
      g.(filters := g.filters[i := f.(inputs := f.inputs[j := Some(s)])])
    case ToEnc(i) => g.(enc := g.enc[i := g.enc[i].(src := Some(s))])
  }

  function Connect(g: Graph, s: Source, k: Sink): (r: Graph)
    requires CanConnect(g, s, k)
  {
    AddDestKeepsShape(g, s, k);
    SetSource(AddDest(g, s, k), k, s)
  }

  lemma AddDestKeepsShape(g: Graph, s: Source, k: Sink)
    requires ValidSource(g, s)
    ensures forall x :: ValidSource(AddDest(g, s, k), x) <==> ValidSource(g, x)
    ensures forall x :: ValidSink(AddDest(g, s, k), x) <==> ValidSink(g, x)
    ensures forall x | ValidSink(g, x) :: SrcOf(AddDest(g, s, k), x) == SrcOf(g, x)
    ensures forall x | ValidSource(g, x) && x != s :: Dests(AddDest(g, s, k), x) == Dests(g, x)
  {
  }

  lemma SetSourceKeepsShape(g: Graph, k: Sink, s: Source)
    requires ValidSink(g, k)
    ensures forall x :: ValidSource(SetSource(g, k, s), x) <==> ValidSource(g, x)
    ensures forall x :: ValidSink(SetSource(g, k, s), x) <==> ValidSink(g, x)
    ensures forall x | ValidSource(g, x) :: Dests(SetSource(g, k, s), x) == Dests(g, x)
    ensures forall x | ValidSink(g, x) ::
      SrcOf(SetSource(g, k, s), x) == if x == k then Some(s) else SrcOf(g, x)
  {
  }

  /** One call of `sch_connect` adds the one link, in both directions, and nothing else;
      so every graph built by it has agreeing destination lists and source links. */
  lemma ConnectKeepsLinks(g: Graph, s: Source, k: Sink)
    requires CanConnect(g, s, k)
    ensures var r := Connect(g, s, k);
      && (forall x :: ValidSource(r, x) <==> ValidSource(g, x))
      && (forall x :: ValidSink(r, x) <==> ValidSink(g, x))
      && (forall x | ValidSource(g, x) :: Dests(r, x) == if x == s then Dests(g, x) + [k] else Dests(g, x))
      && (forall x | ValidSink(g, x) :: SrcOf(r, x) == if x == k then Some(s) else SrcOf(g, x))
    ensures Linked(g) ==> Linked(Connect(g, s, k))
  {
    AddDestKeepsShape(g, s, k);
    SetSourceKeepsShape(AddDest(g, s, k), k, s);
    assert k in Dests(AddDest(g, s, k), s);
    if Linked(g) {
      var r := Connect(g, s, k);
      forall x ensures DestsAgree(r, x) {
        assert DestsAgree(g, x);
      }
      forall x ensures SourceAgrees(r, x) {
        assert SourceAgrees(g, x);
      }
    }
  }

  /** The graph while it is being built. */
  class Building {
    var graph: Graph

    constructor (graph: Graph)
      requires Unconnected(graph)
      ensures this.graph == graph && Linked(graph)
    {
      this.graph := graph;
      assert forall s :: DestsAgree(graph, s);
      assert forall k :: SourceAgrees(graph, k);
    }

    /** `sch_connect`: the destination is added on the side of the source, the source is noted
        on the side of the destination, and both sides go on agreeing. */
    method SchConnect(s: Source, k: Sink)
      requires CanConnect(graph, s, k) && Linked(graph)
      modifies this
      ensures graph == Connect(old(graph), s, k) && Linked(graph)
    {
      ConnectKeepsLinks(graph, s, k);
      AddDestKeepsShape(graph, s, k);
      AddDestTo(s, k);
      SetSourceOf(k, s);
    }

    method AddDestTo(s: Source, k: Sink)
      requires ValidSource(graph, s)
      modifies this
      ensures graph == AddDest(old(graph), s, k)
    {
      match s {
        case Demuxed(i, j) =>
          var dst := graph.demux[i][j] + [k];
          graph := graph.(demux := graph.demux[i := graph.demux[i][j := dst]]);
        case Decoded(i, o) =>
          var d := graph.dec[i];
          d := d.(outputs := d.outputs[o := d.outputs[o] + [k]]);
          graph := graph.(dec := graph.dec[i := d]);
        case Filtered(i, o) =>
          var f := graph.filters[i];
          f := f.(outputs := f.outputs[o := Some(k)]);
          graph := graph.(filters := graph.filters[i := f]);
        case Encoded(i) =>
          var e := graph.enc[i];
          e := e.(dst := e.dst + [k]);
          graph := graph.(enc := graph.enc[i := e]);
      }
    }

    method SetSourceOf(k: Sink, s: Source)
      requires ValidSink(graph, k)
      modifies this
      ensures graph == SetSource(old(graph), k, s)
    {
      match k {
        case ToMux(i, j) => graph := graph.(mux := graph.mux[i := graph.mux[i][j := Some(s)]]);
        case ToDec(i) => graph := graph.(dec := graph.dec[i := graph.dec[i].(src := Some(s))]);
        case ToFilter(i, j) =>
          var f := graph.filters[i];
          graph := graph.(filters := graph.filters[i := f.(inputs := f.inputs[j := Some(s)])]);
        case ToEnc(i) => graph := graph.(enc := graph.enc[i := graph.enc[i].(src := Some(s))]);
      }
    }
  }

  /** The components are registered, nothing is connected yet. */
  predicate Unconnected(g: Graph) {
    && (forall i, j | 0 <= i < |g.demux| && 0 <= j < |g.demux[i]| :: g.demux[i][j] == [])
    && (forall i | 0 <= i < |g.dec| :: g.dec[i].src == None)
    && (forall i, o | 0 <= i < |g.dec| && 0 <= o < |g.dec[i].outputs| :: g.dec[i].outputs[o] == [])
    && (forall i, j | 0 <= i < |g.filters| && 0 <= j < |g.filters[i].inputs| :: g.filters[i].inputs[j] == None)
    && (forall i, j | 0 <= i < |g.filters| && 0 <= j < |g.filters[i].outputs| :: g.filters[i].outputs[j] == None)
    && (forall i | 0 <= i < |g.enc| :: g.enc[i] == Enc(None, []))
    && (forall i, j | 0 <= i < |g.mux| && 0 <= j < |g.mux[i]| :: g.mux[i][j] == None)
  }

  /** `links` are the arguments of a series of `sch_connect` calls on `g`. */
  predicate CanConnectAll(g: Graph, links: seq<(Source, Sink)>)
    decreases |links|
  {
    links == [] ||
    (CanConnect(g, links[0].0, links[0].1) &&
     CanConnectAll(Connect(g, links[0].0, links[0].1), links[1..]))
  }

  function ConnectAll(g: Graph, links: seq<(Source, Sink)>): Graph
    requires CanConnectAll(g, links)
    decreases |links|
  {
    if links == [] then g
    else ConnectAll(Connect(g, links[0].0, links[0].1), links[1..])
  }

  /** Every graph that can be built with `sch_connect` is linked consistently. */
  lemma {:induction false} BuiltGraphIsLinked(g: Graph, links: seq<(Source, Sink)>)
    requires Unconnected(g) || Linked(g)
    requires CanConnectAll(g, links)
    ensures Linked(ConnectAll(g, links))
    decreases |links|
  {
    if Unconnected(g) {
      assert forall s :: DestsAgree(g, s);
      assert forall k :: SourceAgrees(g, k);
    }
    if links != [] {
      ConnectKeepsLinks(g, links[0].0, links[0].1);
      BuiltGraphIsLinked(Connect(g, links[0].0, links[0].1), links[1..]);
    }
  }

  /** The checks of `start_prepare`: nothing is left unconnected. */
  predicate Complete(g: Graph) {
    && (forall i, j | 0 <= i < |g.demux| && 0 <= j < |g.demux[i]| :: g.demux[i][j] != [])
    && (forall i | 0 <= i < |g.dec| :: g.dec[i].src.Some?)
    && (forall i, o | 0 <= i < |g.dec| && 0 <= o < |g.dec[i].outputs| :: g.dec[i].outputs[o] != [])
    && (forall i | 0 <= i < |g.enc| :: g.enc[i].src.Some? && g.enc[i].dst != [])
    && (forall i, j | 0 <= i < |g.mux| && 0 <= j < |g.mux[i]| :: g.mux[i][j].Some?)
    && (forall i, j | 0 <= i < |g.filters| && 0 <= j < |g.filters[i].inputs| :: g.filters[i].inputs[j].Some?)
    && (forall i, j | 0 <= i < |g.filters| && 0 <= j < |g.filters[i].outputs| :: g.filters[i].outputs[j].Some?)
  }

  /** The checks find every source without a destination and every sink without a source. */
  lemma CompleteIff(g: Graph)
    ensures Complete(g) <==>
      && (forall s | ValidSource(g, s) :: Dests(g, s) != [])
      && (forall k | ValidSink(g, k) :: SrcOf(g, k).Some?)
  {
    if (forall s | ValidSource(g, s) :: Dests(g, s) != []) && (forall k | ValidSink(g, k) :: SrcOf(g, k).Some?) {
      forall i, j | 0 <= i < |g.demux| && 0 <= j < |g.demux[i]| ensures g.demux[i][j] != [] {
        assert ValidSource(g, Demuxed(i, j));
      }
      forall i | 0 <= i < |g.dec| ensures g.dec[i].src.Some? {
        assert ValidSink(g, ToDec(i));
      }
      forall i, o | 0 <= i < |g.dec| && 0 <= o < |g.dec[i].outputs| ensures g.dec[i].outputs[o] != [] {
        assert ValidSource(g, Decoded(i, o));
      }
      forall i | 0 <= i < |g.enc| ensures g.enc[i].src.Some? && g.enc[i].dst != [] {
        assert ValidSink(g, ToEnc(i)) && ValidSource(g, Encoded(i));
      }
      forall i, j | 0 <= i < |g.mux| && 0 <= j < |g.mux[i]| ensures g.mux[i][j].Some? {
        assert ValidSink(g, ToMux(i, j));
      }
      forall i, j | 0 <= i < |g.filters| && 0 <= j < |g.filters[i].inputs| ensures g.filters[i].inputs[j].Some? {
        assert ValidSink(g, ToFilter(i, j));
      }
      forall i, j | 0 <= i < |g.filters| && 0 <= j < |g.filters[i].outputs| ensures g.filters[i].outputs[j].Some? {
        assert ValidSource(g, Filtered(i, j));
        assert Dests(g, Filtered(i, j)) != [];
      }
    }
  }

  /** What holds once the structural checks of `start_prepare` have passed. */
  ghost predicate Ready(g: Graph) {
    Linked(g) && Complete(g)
  }
}

/** The start-up check that filtergraphs do not feed each other in a circle: an explicit
    stack depth-first search from every filtergraph towards its sources. */
module Acyclic {
  import opened Topology

  // ----- following source links out of decoders and encoders

  /** Following source links from `s` leaves the decoders and encoders within `fuel` steps. */
  predicate Ends(g: Graph, s: Source, fuel: nat)
    decreases fuel
  {
    match s
    case Demuxed(_, _) => true
    case Filtered(_, _) => true
    case Decoded(i, _) =>
      fuel > 0 && i < |g.dec| && g.dec[i].src.Some? && Ends(g, g.dec[i].src.value, fuel - 1)
    case Encoded(i) =>
      fuel > 0 && i < |g.enc| && g.enc[i].src.Some? && Ends(g, g.enc[i].src.value, fuel - 1)
  }

  function Codecs(g: Graph): nat {
    |g.dec| + |g.enc|
  }

  /** Source links leave the decoders and encoders from everywhere, within one step for each of
      them; `LoopFreeIffNoLoop` says when that is. */
  ghost predicate CodecLoopFree(g: Graph) {
    forall s | ValidSource(g, s) :: Ends(g, s, Codecs(g))
  }

  function Owner(s: Source): Sink
    requires s.Decoded? || s.Encoded?
  {
    match s
    case Decoded(i, _) => ToDec(i)
    case Encoded(i) => ToEnc(i)
  }

  /** The number of decoders and encoders passed on the way up. */
  function Steps(g: Graph, s: Source, fuel: nat): (n: nat)
    requires Ends(g, s, fuel)
    ensures n <= fuel
    ensures n == 0 <==> s.Demuxed? || s.Filtered?
    decreases fuel
  {
    match s
    case Demuxed(_, _) => 0
    case Filtered(_, _) => 0
    case Decoded(i, _) => 1 + Steps(g, g.dec[i].src.value, fuel - 1)
    case Encoded(i) => 1 + Steps(g, g.enc[i].src.value, fuel - 1)
  }

  lemma {:induction false} StepsAnyFuel(g: Graph, s: Source, a: nat, b: nat)
    requires Ends(g, s, a)
    requires b >= Steps(g, s, a)
    ensures Ends(g, s, b) && Steps(g, s, b) == Steps(g, s, a)
    decreases a
  {
    match s
    case Decoded(i, _) => StepsAnyFuel(g, g.dec[i].src.value, a - 1, b - 1);
    case Encoded(i) => StepsAnyFuel(g, g.enc[i].src.value, a - 1, b - 1);
    case _ =>
  }

  ghost predicate AtMost(g: Graph, k: Sink, n: nat) {
    match k
    case ToDec(i) => i < |g.dec| && exists a :: Ends(g, Decoded(i, 0), a) && Steps(g, Decoded(i, 0), a) <= n
    case ToEnc(i) => i < |g.enc| && exists a :: Ends(g, Encoded(i), a) && Steps(g, Encoded(i), a) <= n
    case _ => false
  }

  lemma OutputsShareSource(g: Graph, i: nat, o: nat, p: nat, fuel: nat)
    ensures Ends(g, Decoded(i, o), fuel) == Ends(g, Decoded(i, p), fuel)
    ensures Ends(g, Decoded(i, o), fuel) ==> Steps(g, Decoded(i, o), fuel) == Steps(g, Decoded(i, p), fuel)
  {
  }

  function Above(g: Graph, s: Source): Source
    requires s.Decoded? || s.Encoded?
    requires s.Decoded? ==> s.idx < |g.dec| && g.dec[s.idx].src.Some?
    requires s.Encoded? ==> s.idx < |g.enc| && g.enc[s.idx].src.Some?
  {
    if s.Decoded? then g.dec[s.idx].src.value else g.enc[s.idx].src.value
  }

  /** The codecs passed on the way up. */
  function Passed(g: Graph, s: Source, fuel: nat): set<Sink>
    requires Ends(g, s, fuel)
    decreases fuel
  {
    if s.Decoded? || s.Encoded? then Passed(g, Above(g, s), fuel - 1) + {Owner(s)} else {}
  }

  lemma AtMostMore(g: Graph, k: Sink, n: nat)
    requires AtMost(g, k, n)
    ensures AtMost(g, k, n + 1)
  {
  }

  lemma OwnerPassed(g: Graph, s: Source, fuel: nat)
    requires (s.Decoded? || s.Encoded?) && Ends(g, s, fuel)
    ensures AtMost(g, Owner(s), Steps(g, s, fuel))
  {
    if s.Decoded? {
      OutputsShareSource(g, s.idx, s.output, 0, fuel);
    }
  }

  lemma {:induction false} PassedAtMost(g: Graph, s: Source, fuel: nat, k: Sink)
    requires Ends(g, s, fuel) && k in Passed(g, s, fuel)
    ensures AtMost(g, k, Steps(g, s, fuel))
    decreases fuel
  {
    if k == Owner(s) {
      OwnerPassed(g, s, fuel);
    } else {
      PassedAtMost(g, Above(g, s), fuel - 1, k);
      AtMostMore(g, k, Steps(g, Above(g, s), fuel - 1));
    }
  }

  lemma OwnerNotBelow(g: Graph, s: Source, fuel: nat)
    requires (s.Decoded? || s.Encoded?) && Ends(g, s, fuel)
    ensures !AtMost(g, Owner(s), Steps(g, s, fuel) - 1)
  {
    if AtMost(g, Owner(s), Steps(g, s, fuel) - 1) {
      var r := if s.Decoded? then Decoded(s.idx, 0) else s;
      if s.Decoded? { OutputsShareSource(g, s.idx, s.output, 0, fuel); }
      var a :| Ends(g, r, a) && Steps(g, r, a) <= Steps(g, s, fuel) - 1;
      StepsAnyFuel(g, r, a, fuel);
    }
  }

  /** They are pairwise distinct: there are as many of them as steps. */
  lemma {:induction false} PassedSize(g: Graph, s: Source, fuel: nat)
    requires Ends(g, s, fuel)
    ensures |Passed(g, s, fuel)| == Steps(g, s, fuel)
    decreases fuel
  {
    if s.Decoded? || s.Encoded? {
      PassedSize(g, Above(g, s), fuel - 1);
      if Owner(s) in Passed(g, Above(g, s), fuel - 1) {
        PassedAtMost(g, Above(g, s), fuel - 1, Owner(s));
        OwnerNotBelow(g, s, fuel);
      }
    }
  }

  function AllCodecs(g: Graph): set<Sink> {
    (set i | 0 <= i < |g.dec| :: ToDec(i)) + (set i | 0 <= i < |g.enc| :: ToEnc(i))
  }

  /** Leaving the codecs at all means leaving them within one step per codec, so
      `CodecLoopFree` asks for no more than that `src_filtergraph` returns. */
  lemma EndsWithinCodecs(g: Graph, s: Source, fuel: nat)
    requires Ends(g, s, fuel)
    ensures Ends(g, s, Codecs(g))
  {
    var c := Passed(g, s, fuel);
    PassedSize(g, s, fuel);
    forall k | k in c ensures k in AllCodecs(g) {
      PassedAtMost(g, s, fuel, k);
    }
    DecCount(|g.dec|);
    EncCount(|g.enc|);
    assert c <= AllCodecs(g);
    SubsetSize(c, AllCodecs(g));
    StepsAnyFuel(g, s, fuel, Codecs(g));
  }

  lemma {:induction false} DecCount(n: nat)
    ensures |set i | 0 <= i < n :: ToDec(i)| == n
  {
    if n > 0 {
      DecCount(n - 1);
      assert (set i | 0 <= i < n :: ToDec(i)) == (set i | 0 <= i < n - 1 :: ToDec(i)) + {ToDec(n - 1)};
    }
  }

  lemma {:induction false} EncCount(n: nat)
    ensures |set i | 0 <= i < n :: ToEnc(i)| == n
  {
    if n > 0 {
      EncCount(n - 1);
      assert (set i | 0 <= i < n :: ToEnc(i)) == (set i | 0 <= i < n - 1 :: ToEnc(i)) + {ToEnc(n - 1)};
    }
  }

  lemma {:induction false} SubsetSize<T>(a: set<T>, b: set<T>)
    requires a <= b
    ensures |a| <= |b|
  {
    if a != {} {
      var x :| x in a;
      SubsetSize(a - {x}, b - {x});
    }
  }

  // ----- loops of codecs

  function LinkOf(g: Graph, k: Sink): Option<Source> {
    match k
    case ToDec(i) => if i < |g.dec| then g.dec[i].src else None
    case ToEnc(i) => if i < |g.enc| then g.enc[i].src else None
    case _ => None
  }

  /** Codec `a` gets its data from codec `b`. */
  predicate CodecFeeds(g: Graph, b: Sink, a: Sink) {
    var s := LinkOf(g, a);
    s.Some? && (s.value.Decoded? || s.value.Encoded?) && Owner(s.value) == b
  }

  ghost predicate CodecPath(g: Graph, p: seq<Sink>) {
    forall i | 0 <= i < |p| - 1 :: CodecFeeds(g, p[i + 1], p[i])
  }

  ghost predicate CodecLoop(g: Graph, p: seq<Sink>) {
    |p| > 1 && CodecPath(g, p) && p[0] == p[|p| - 1]
  }

  /** From a source that does not leave the codecs within `fuel` steps, that many can be taken. */
  lemma {:induction false} LongPath(g: Graph, s: Source, fuel: nat) returns (p: seq<Sink>)
    requires Ready(g) && ValidSource(g, s) && !Ends(g, s, fuel)
    ensures |p| == fuel + 1 && CodecPath(g, p) && p[0] == Owner(s)
    ensures forall k | k in p :: k in AllCodecs(g)
    decreases fuel
  {
    var k := Owner(s);
    p := [k];
    if fuel > 0 {
      assert SourceAgrees(g, k);
      var rest := LongPath(g, LinkOf(g, k).value, fuel - 1);
      p := [k] + rest;
      forall i | 0 <= i < |p| - 1 ensures CodecFeeds(g, p[i + 1], p[i]) {
        assert i > 0 ==> CodecFeeds(g, rest[i], rest[i - 1]);
      }
    }
  }

  lemma {:induction false} DistinctSize(p: seq<Sink>)
    requires forall i, j | 0 <= i < j < |p| :: p[i] != p[j]
    ensures |set k | k in p| == |p|
  {
    if p != [] {
      var n := |p| - 1;
      DistinctSize(p[..n]);
      assert (set k | k in p) == (set k | k in p[..n]) + {p[n]};
    }
  }

  lemma LongPathLoops(g: Graph, p: seq<Sink>) returns (loop: seq<Sink>)
    requires CodecPath(g, p) && |p| > Codecs(g) && forall k | k in p :: k in AllCodecs(g)
    ensures CodecLoop(g, loop)
  {
    if i, j :| 0 <= i < j < |p| && p[i] == p[j] {
      loop := p[i..j + 1];
      forall n | 0 <= n < |loop| - 1 ensures CodecFeeds(g, loop[n + 1], loop[n]) {
        assert CodecFeeds(g, p[i + n + 1], p[i + n]);
      }
    } else {
      DistinctSize(p);
      DecCount(|g.dec|);
      EncCount(|g.enc|);
      SubsetSize((set k | k in p), AllCodecs(g));
      assert false;
    }
  }

  function Output(k: Sink): Source {
    match k case ToDec(i) => Decoded(i, 0) case _ => Encoded(k.idx)
  }

  function CodecSteps(g: Graph, k: Sink): nat {
    if Ends(g, Output(k), Codecs(g)) then Steps(g, Output(k), Codecs(g)) else 0
  }

  lemma FedEnds(g: Graph, b: Sink, a: Sink)
    requires Linked(g) && CodecLoopFree(g) && CodecFeeds(g, b, a)
    ensures Ends(g, Output(b), Codecs(g))
  {
    assert SourceAgrees(g, a);
    var s := LinkOf(g, a).value;
    if s.Decoded? {
      OutputsShareSource(g, s.idx, s.output, 0, Codecs(g));
    }
  }

  lemma FewerSteps(g: Graph, b: Sink, a: Sink)
    requires CodecFeeds(g, b, a) && Ends(g, Output(a), Codecs(g))
    ensures Ends(g, Output(b), Codecs(g)) && CodecSteps(g, b) < CodecSteps(g, a)
  {
    var n, s := Codecs(g), LinkOf(g, a).value;
    StepsAnyFuel(g, s, n - 1, n);
    if s.Decoded? {
      OutputsShareSource(g, s.idx, s.output, 0, n);
    }
  }

  /** Along a loop the codecs still to pass would get fewer and fewer. */
  lemma {:induction false} StepsAlong(g: Graph, p: seq<Sink>, n: nat)
    requires Linked(g) && CodecLoopFree(g) && CodecLoop(g, p) && n < |p|
    ensures Ends(g, Output(p[n]), Codecs(g)) && CodecSteps(g, p[n]) + n <= CodecSteps(g, p[0])
  {
    if n == 0 {
      var m := |p| - 2;
      assert CodecFeeds(g, p[m + 1], p[m]);
      FedEnds(g, p[m + 1], p[m]);
    } else {
      StepsAlong(g, p, n - 1);
      assert CodecFeeds(g, p[n - 1 + 1], p[n - 1]);
      FewerSteps(g, p[n], p[n - 1]);
    }
  }

  /** On a complete graph, source links leave the codecs from everywhere exactly if no codec
      feeds itself through codecs only. */
  lemma LoopFreeIffNoLoop(g: Graph)
    requires Ready(g)
    ensures CodecLoopFree(g) <==> !exists p :: CodecLoop(g, p)
  {
    if p :| CodecLoopFree(g) && CodecLoop(g, p) {
      StepsAlong(g, p, |p| - 1);
      assert false;
    }
    if !CodecLoopFree(g) {
      var s :| ValidSource(g, s) && !Ends(g, s, Codecs(g));
      var p := LongPath(g, s, Codecs(g));
      var loop := LongPathLoops(g, p);
    }
  }

  /** Two codecs that feed each other: every link is one that `sch_connect` accepts, yet no
      number of steps leaves the loop. */
  lemma CodecLoopIsAccepted()
    ensures var g0 := Graph([], [Dec(None, [[]])], [], [Enc(None, [])], []);
      var links := [(Decoded(0, 0), ToEnc(0)), (Encoded(0), ToDec(0))];
      Unconnected(g0) && CanConnectAll(g0, links) && Ready(ConnectAll(g0, links)) &&
      forall fuel :: !Ends(ConnectAll(g0, links), Encoded(0), fuel)
  {
    var g0 := Graph([], [Dec(None, [[]])], [], [Enc(None, [])], []);
    var links := [(Decoded(0, 0), ToEnc(0)), (Encoded(0), ToDec(0))];
    var g1 := Connect(g0, Decoded(0, 0), ToEnc(0));
    var g := Connect(g1, Encoded(0), ToDec(0));
    assert links[1..] == [(Encoded(0), ToDec(0))];
    assert CanConnectAll(g1, links[1..]) by {
      assert links[1..][1..] == [];
    }
    assert ConnectAll(g1, links[1..]) == g by {
      assert links[1..][1..] == [];
    }
    BuiltGraphIsLinked(g0, links);
    forall fuel: nat ensures !Ends(g, Encoded(0), fuel) {
      NeverEnds(g, fuel);
    }
  }

  lemma {:induction false} NeverEnds(g: Graph, fuel: nat)
    requires |g.dec| == 1 && |g.enc| == 1
    requires g.dec[0].src == Some(Encoded(0)) && g.enc[0].src == Some(Decoded(0, 0))
    ensures !Ends(g, Encoded(0), fuel)
    ensures !Ends(g, Decoded(0, 0), fuel)
  {
    if fuel > 0 {
      NeverEnds(g, fuel - 1);
    }
  }

  function UpEnd(g: Graph, s: Source, fuel: nat): (r: Source)
    requires Ends(g, s, fuel)
    ensures r.Demuxed? || r.Filtered?
    decreases fuel
  {
    match s
    case Demuxed(_, _) => s
    case Filtered(_, _) => s
    case Decoded(i, _) => UpEnd(g, g.dec[i].src.value, fuel - 1)
    case Encoded(i) => UpEnd(g, g.enc[i].src.value, fuel - 1)
  }

  lemma {:induction false} UpEndAnyFuel(g: Graph, s: Source, a: nat, b: nat)
    requires Ends(g, s, a) && Ends(g, s, b)
    ensures UpEnd(g, s, a) == UpEnd(g, s, b)
    decreases a
  {
    match s
    case Decoded(i, _) => UpEndAnyFuel(g, g.dec[i].src.value, a - 1, b - 1);
    case Encoded(i) => UpEndAnyFuel(g, g.enc[i].src.value, a - 1, b - 1);
    case _ =>
  }

  lemma {:induction false} UpEndValid(g: Graph, s: Source, fuel: nat)
    requires Linked(g) && ValidSource(g, s) && Ends(g, s, fuel)
    ensures ValidSource(g, UpEnd(g, s, fuel))
    decreases fuel
  {
    match s
    case Decoded(i, _) =>
      assert SourceAgrees(g, ToDec(i));
      UpEndValid(g, g.dec[i].src.value, fuel - 1);
    case Encoded(i) =>
      assert SourceAgrees(g, ToEnc(i));
      UpEndValid(g, g.enc[i].src.value, fuel - 1);
    case _ =>
  }

  /** `src_filtergraph`: the demuxer or filtergraph output above a node. */
  method SrcFiltergraph(g: Graph, src: Source) returns (r: Source)
    requires Ends(g, src, Codecs(g))
    ensures r == UpEnd(g, src, Codecs(g))
  {
    r := src;
    ghost var fuel := Codecs(g);
    while r.Decoded? || r.Encoded?
      invariant Ends(g, r, fuel) && UpEnd(g, r, fuel) == UpEnd(g, src, Codecs(g))
      decreases fuel
    {
      match r {
        case Decoded(i, _) => r := g.dec[i].src.value;
        case Encoded(i) => r := g.enc[i].src.value;
      }
      fuel := fuel - 1;
    }
  }

  // ----- cycles of filtergraphs

  /** What the filtergraph search may rely on. */
  ghost predicate Searchable(g: Graph) {
    Ready(g) && CodecLoopFree(g)
  }

  lemma InputEnds(g: Graph, f: nat, j: nat)
    requires Searchable(g) && f < |g.filters| && j < |g.filters[f].inputs|
    ensures g.filters[f].inputs[j].Some?
    ensures ValidSource(g, g.filters[f].inputs[j].value)
    ensures Ends(g, g.filters[f].inputs[j].value, Codecs(g))
    ensures ValidSource(g, UpEnd(g, g.filters[f].inputs[j].value, Codecs(g)))
  {
    assert SourceAgrees(g, ToFilter(f, j));
    UpEndValid(g, g.filters[f].inputs[j].value, Codecs(g));
  }

  /** For every filtergraph and input, the filtergraph above it; none if it is a demuxer. */
  type Feeds = seq<seq<Option<nat>>>

  function AboveInput(g: Graph, src: Option<Source>): Option<nat> {
    if src.Some? && Ends(g, src.value, Codecs(g)) then
      match UpEnd(g, src.value, Codecs(g))
      case Filtered(u, _) => Some(u)
      case _ => None
    else None
  }

  function FeedsOf(g: Graph): (up: Feeds)
    ensures |up| == |g.filters|
    ensures forall f | 0 <= f < |up| :: |up[f]| == |g.filters[f].inputs|
  {
    seq(|g.filters|, f requires 0 <= f < |g.filters| =>
      seq(|g.filters[f].inputs|, j requires 0 <= j < |g.filters[f].inputs| => AboveInput(g, g.filters[f].inputs[j])))
  }

  ghost predicate Closed(up: Feeds) {
    forall f, j | 0 <= f < |up| && 0 <= j < |up[f]| && up[f][j].Some? :: up[f][j].value < |up|
  }

  /** `up` answers `src_filtergraph` for every filtergraph input. */
  ghost predicate Resolved(g: Graph, up: Feeds) {
    && |up| == |g.filters|
    && Closed(up)
    && (forall f | 0 <= f < |up| :: |up[f]| == |g.filters[f].inputs|)
    && (forall f, j | 0 <= f < |up| && 0 <= j < |up[f]| :: Answers(g, g.filters[f].inputs[j], up[f][j]))
  }

  ghost predicate Answers(g: Graph, src: Option<Source>, a: Option<nat>) {
    src.Some? && Ends(g, src.value, Codecs(g)) && a == AboveInput(g, src)
  }

  lemma FeedsAreResolved(g: Graph)
    requires Searchable(g)
    ensures Resolved(g, FeedsOf(g))
  {
    forall f, j | 0 <= f < |g.filters| && 0 <= j < |g.filters[f].inputs|
      ensures Answers(g, g.filters[f].inputs[j], FeedsOf(g)[f][j])
    {
      InputEnds(g, f, j);
    }
    forall f, j | 0 <= f < |g.filters| && 0 <= j < |g.filters[f].inputs| && FeedsOf(g)[f][j].Some?
      ensures FeedsOf(g)[f][j].value < |g.filters|
    {
      InputEnds(g, f, j);
    }
  }

  /** Filtergraph `u` feeds filtergraph `f`, through any number of codecs. */
  predicate FedBy(up: Feeds, f: nat, u: nat) {
    f < |up| && Some(u) in up[f]
  }

  ghost predicate IsPath(up: Feeds, p: seq<nat>) {
    p != [] && forall i :: 0 <= i < |p| - 1 ==> FedBy(up, p[i], p[i + 1])
  }

  /** Going upstream from `f` one can come back to a filtergraph already passed. */
  ghost predicate CycleAbove(up: Feeds, f: nat) {
    exists p, i :: IsPath(up, p) && p[0] == f && 0 <= i < |p| - 1 && p[i] == p[|p| - 1]
  }

  /** A layering of the filtergraphs in `rank`: it holds everything that feeds them, lower. */
  ghost predicate Layered(up: Feeds, rank: map<nat, nat>) {
    forall f | f in rank :: f < |up| && rank[f] < |rank| &&
      forall u | FedBy(up, f, u) :: u in rank && rank[u] < rank[f]
  }

  lemma {:induction false} PathDescends(up: Feeds, rank: map<nat, nat>, p: seq<nat>, i: nat)
    requires Layered(up, rank) && IsPath(up, p) && p[0] in rank
    requires i < |p|
    ensures p[i] in rank
    ensures forall k | 0 <= k < i :: p[k] in rank && rank[p[i]] < rank[p[k]]
  {
    if i > 0 {
      PathDescends(up, rank, p, i - 1);
      assert FedBy(up, p[i - 1], p[i]);
    }
  }

  lemma LayeredHasNoCycle(up: Feeds, rank: map<nat, nat>, f: nat)
    requires Layered(up, rank) && f in rank
    ensures !CycleAbove(up, f)
  {
    forall p, i | IsPath(up, p) && p[0] == f && 0 <= i < |p| - 1 ensures p[i] != p[|p| - 1] {
      PathDescends(up, rank, p, |p| - 1);
    }
  }

  // ----- the search

  datatype Mark = New | Started | Done

  /** A filtergraph and the next of its inputs to look at. */
  datatype Pos = Pos(idx: nat, next: nat)

  /** The entries on the search stack, as the list they were pushed in. */
  datatype Trail = Bottom | Push(below: Trail, top: Pos)

  function Entries(t: Trail): seq<Pos> {
    match t case Bottom => [] case Push(b, e) => Entries(b) + [e]
  }

  predicate On(t: Trail, x: nat) {
    match t case Bottom => false case Push(b, e) => e.idx == x || On(b, x)
  }

  /** Where the search began, given that it is now at `cur`. */
  function Origin(t: Trail, cur: nat): nat {
    match t case Bottom => cur case Push(b, e) => Origin(b, e.idx)
  }

  /** The inputs of `f` before the `n`-th lead only to demuxers and to layered filtergraphs. */
  ghost predicate Settled(up: Feeds, f: nat, n: nat, rank: map<nat, nat>) {
    f < |up| && n <= |up[f]| && forall j | 0 <= j < n && up[f][j].Some? :: up[f][j].value in rank
  }

  /** Every stack entry has been left through the input that leads to the next one, with the
      inputs before that settled, and no filtergraph is on the stack twice. */
  ghost predicate Leads(up: Feeds, t: Trail, cur: nat, rank: map<nat, nat>) {
    match t
    case Bottom => true
    case Push(b, e) =>
      e.next > 0 && Settled(up, e.idx, e.next - 1, rank) && e.next <= |up[e.idx]| &&
      up[e.idx][e.next - 1] == Some(cur) &&
      !On(b, e.idx) && Leads(up, b, e.idx, rank)
  }

  lemma {:induction false} LeadsMore(up: Feeds, t: Trail, cur: nat, rank: map<nat, nat>, r: map<nat, nat>)
    requires Leads(up, t, cur, rank) && rank.Keys <= r.Keys
    ensures Leads(up, t, cur, r)
  {
    if t.Push? {
      LeadsMore(up, t.below, t.top.idx, rank, r);
    }
  }

  /** Distinct filtergraphs: the stack has an entry for each at most. */
  lemma {:induction false} TrailFits(up: Feeds, t: Trail, cur: nat, rank: map<nat, nat>) returns (seen: set<nat>)
    requires Leads(up, t, cur, rank)
    ensures forall x :: x in seen <==> On(t, x)
    ensures |seen| == |Entries(t)| <= |up|
    ensures forall x | x in seen :: x < |up|
  {
    match t
    case Bottom => seen := {};
    case Push(b, e) =>
      seen := TrailFits(up, b, e.idx, rank);
      seen := seen + {e.idx};
      BelowSize(seen, |up|);
  }

  lemma {:induction false} BelowSize(s: set<nat>, n: nat)
    requires forall x | x in s :: x < n
    ensures |s| <= n
  {
    if s == {} {
    } else if n - 1 in s {
      BelowSize(s - {n - 1}, n - 1);
    } else {
      var x :| x in s;
      BelowSize(s, n - 1);
    }
  }

  /** An input that leads back to the current filtergraph or to one on the stack closes a cycle. */
  lemma {:induction false} CycleFound(up: Feeds, t: Trail, cur: nat, rank: map<nat, nat>, p: seq<nat>, i: nat)
    requires Leads(up, t, cur, rank)
    requires IsPath(up, p) && p[0] == cur
    requires i == 0 || On(t, p[|p| - 1]) || (0 < i < |p| - 1 && p[i] == p[|p| - 1])
    requires i == 0 ==> On(t, p[|p| - 1]) || (|p| > 1 && p[0] == p[|p| - 1])
    ensures CycleAbove(up, Origin(t, cur))
  {
    match t
    case Bottom =>
      assert IsPath(up, p) && p[0] == cur && 0 <= i < |p| - 1 && p[i] == p[|p| - 1];
    case Push(b, e) =>
      var q := [e.idx] + p;
      assert FedBy(up, e.idx, cur);
      forall k | 0 <= k < |q| - 1 ensures FedBy(up, q[k], q[k + 1]) {
        if k > 0 { assert q[k] == p[k - 1]; }
      }
      if e.idx == p[|p| - 1] {
        CycleFound(up, b, e.idx, rank, q, 0);
      } else if On(b, p[|p| - 1]) {
        CycleFound(up, b, e.idx, rank, q, 0);
      } else {
        CycleFound(up, b, e.idx, rank, q, i + 1);
      }
  }

  /** Add a filtergraph whose inputs are all settled to the layering. */
  lemma Finish(up: Feeds, rank: map<nat, nat>, f: nat) returns (r: map<nat, nat>)
    requires Layered(up, rank) && f < |up| && Settled(up, f, |up[f]|, rank)
    ensures Layered(up, r) && f in r && rank.Keys <= r.Keys
  {
    if f in rank {
      r := rank;
    } else {
      r := rank[f := |rank|];
      assert r.Keys == rank.Keys + {f};
    }
  }

  // ----- how much is left to do

  ghost predicate AtMostInputs(up: Feeds, m: nat) {
    forall f | 0 <= f < |up| :: |up[f]| <= m
  }

  lemma {:induction false} InputBound(up: Feeds) returns (m: nat)
    ensures AtMostInputs(up, m)
  {
    if up == [] {
      m := 0;
    } else {
      m := InputBound(up[1..]);
      m := if |up[0]| > m then |up[0]| else m;
      forall f | 0 <= f < |up| ensures |up[f]| <= m {
        if f > 0 { assert up[f] == up[1..][f - 1]; }
      }
    }
  }

  function Times(a: nat, b: nat): (c: nat) {
    if a == 0 then 0 else Times(a - 1, b) + b
  }

  lemma {:induction false} TimesGrows(a: nat, b: nat, c: nat)
    requires a <= b
    ensures Times(a, c) <= Times(b, c)
  {
    if a < b {
      TimesGrows(a, b - 1, c);
    }
  }

  /** A bound on the steps spent below one fresh filtergraph with room for `k` more on the stack. */
  function Cost(m: nat, k: nat): (c: nat)
    ensures c >= 1
  {
    1 + (if k == 0 then 0 else Times(m, 1 + Cost(m, k - 1)))
  }

  lemma FreshCost(n: nat, m: nat, k: nat)
    requires n <= m && k > 0
    ensures 1 + Times(n, 1 + Cost(m, k - 1)) <= Cost(m, k)
  {
    TimesGrows(n, m, 1 + Cost(m, k - 1));
  }

  /** The steps an entry still has to spend, with room for `k` more on the stack above it. */
  function Left(up: Feeds, m: nat, e: Pos, k: nat): nat {
    if e.idx < |up| && e.next <= |up[e.idx]| then 1 + Times(|up[e.idx]| - e.next, 1 + Cost(m, k)) else 0
  }

  /** The steps still to be spent on the whole stack. A completed filtergraph is entered again
      when another path leads to it, so counting the visited ones would not do. */
  function Todo(up: Feeds, m: nat, t: Trail): nat {
    match t
    case Bottom => 0
    case Push(b, e) =>
      var d := |Entries(b)| + 1;
      Todo(up, m, b) + Left(up, m, e, if d <= |up| then |up| - d else 0)
  }

  // ----- the three moves of the search

  ghost predicate MarksAgree(marks: seq<Mark>, t: Trail, cur: nat) {
    forall x | 0 <= x < |marks| && x != cur :: marks[x] == Started <==> On(t, x)
  }

  /** The search is at `src`, having come by `t`, with the filtergraphs in `rank` done. */
  ghost predicate Searching(up: Feeds, marks: seq<Mark>, t: Trail, src: Pos, rank: map<nat, nat>) {
    && |marks| == |up|
    && MarksAgree(marks, t, src.idx)
    && Settled(up, src.idx, src.next, rank)
    && !On(t, src.idx)
    && Leads(up, t, src.idx, rank)
    && Layered(up, rank)
  }

  /** The filtergraphs marked as started are exactly those on the stack and the current one. */
  lemma StartedExactly(up: Feeds, marks: seq<Mark>, t: Trail, src: Pos, rank: map<nat, nat>)
    requires Searching(up, marks, t, src, rank)
    ensures src.idx < |marks|
    ensures forall x | 0 <= x < |marks| :: marks[src.idx := Started][x] == Started <==> x == src.idx || On(t, x)
    ensures |Entries(t)| < |up|
  {
    var seen := TrailFits(up, t, src.idx, rank);
    BelowSize(seen + {src.idx}, |up|);
  }

  lemma Stay(up: Feeds, m: nat, marks: seq<Mark>, t: Trail, src: Pos, rank: map<nat, nat>)
    requires Searching(up, marks, t, src, rank)
    requires src.next < |up[src.idx]| && up[src.idx][src.next].None?
    ensures var next := src.(next := src.next + 1);
      Searching(up, marks[src.idx := Started], t, next, rank) &&
      Todo(up, m, Push(t, next)) < Todo(up, m, Push(t, src))
  {
  }

  lemma Descend(up: Feeds, m: nat, marks: seq<Mark>, t: Trail, src: Pos, rank: map<nat, nat>, u: nat)
    requires Searching(up, marks, t, src, rank) && AtMostInputs(up, m)
    requires src.next < |up[src.idx]| && up[src.idx][src.next] == Some(u) && u < |up|
    requires marks[src.idx := Started][u] != Started
    ensures var t' := Push(t, src.(next := src.next + 1));
      Searching(up, marks[src.idx := Started], t', Pos(u, 0), rank) &&
      Todo(up, m, Push(t', Pos(u, 0))) < Todo(up, m, Push(t, src))
  {
    StartedExactly(up, marks, t, src, rank);
    var t' := Push(t, src.(next := src.next + 1));
    assert Searching(up, marks[src.idx := Started], t', Pos(u, 0), rank);
    StartedExactly(up, marks[src.idx := Started], t', Pos(u, 0), rank);
    DescendSpends(up, m, t, src, u);
  }

  lemma DescendSpends(up: Feeds, m: nat, t: Trail, src: Pos, u: nat)
    requires AtMostInputs(up, m) && |Entries(t)| + 2 <= |up|
    requires src.idx < |up| && src.next < |up[src.idx]| && u < |up|
    ensures Todo(up, m, Push(Push(t, src.(next := src.next + 1)), Pos(u, 0))) < Todo(up, m, Push(t, src))
  {
    var next := src.(next := src.next + 1);
    var d := |Entries(t)| + 1;
    FreshCost(|up[u]|, m, |up| - d);
    assert |Entries(Push(t, next))| + 1 == d + 1;
    assert Todo(up, m, Push(Push(t, next), Pos(u, 0))) ==
      Todo(up, m, t) + Left(up, m, next, |up| - d) + Left(up, m, Pos(u, 0), |up| - d - 1);
  }

  lemma Ascend(up: Feeds, m: nat, marks: seq<Mark>, t: Trail, src: Pos, rank: map<nat, nat>) returns (r: map<nat, nat>)
    requires Searching(up, marks, t, src, rank) && t.Push?
    requires src.next == |up[src.idx]|
    ensures rank.Keys <= r.Keys
    ensures Searching(up, marks[src.idx := Done], t.below, t.top, r)
    ensures Todo(up, m, t) < Todo(up, m, Push(t, src))
  {
    r := Finish(up, rank, src.idx);
    LeadsMore(up, t, src.idx, rank, r);
  }

  ghost predicate OnStack(stack: seq<Pos>, depth: nat, t: Trail) {
    depth <= |stack| && stack[..depth] == Entries(t)
  }

  lemma TopEntry(t: Trail, stack: seq<Pos>, depth: nat)
    requires OnStack(stack, depth, t) && t.Push?
    ensures depth > 0 && stack[depth - 1] == t.top && OnStack(stack, depth - 1, t.below)
  {
    assert stack[..depth][depth - 1] == t.top;
    assert stack[..depth - 1] == stack[..depth][..depth - 1];
  }

  method PushEntry(stack: array<Pos>, depth: nat, e: Pos, ghost t: Trail)
    requires depth < stack.Length && OnStack(stack[..], depth, t)
    modifies stack
    ensures OnStack(stack[..], depth + 1, Push(t, e))
  {
    stack[depth] := e;
    assert stack[..][..depth + 1] == stack[..][..depth] + [e];
  }

  /** One move of the search from a filtergraph with inputs left: on to its next input, or up
      into the filtergraph above the input, or to the end if that one has been started. */
  method LookUp(g: Graph, src: Pos, visited: array<Mark>, stack: array<Pos>, depth: nat,
                ghost up: Feeds, ghost m: nat, ghost marks: seq<Mark>, ghost t: Trail, ghost rank: map<nat, nat>)
    returns (cycle: bool, src': Pos, depth': nat, ghost t': Trail)
    requires Resolved(g, up) && AtMostInputs(up, m) && stack.Length == |g.filters|
    requires Searching(up, marks, t, src, rank) && src.next < |up[src.idx]| && OnStack(stack[..], depth, t)
    requires visited[..] == marks[src.idx := Started]
    modifies stack
    ensures cycle ==> CycleAbove(up, Origin(t, src.idx))
    ensures !cycle ==>
      && Searching(up, marks[src.idx := Started], t', src', rank) && OnStack(stack[..], depth', t')
      && Origin(t', src'.idx) == Origin(t, src.idx)
      && Todo(up, m, Push(t', src')) < Todo(up, m, Push(t, src))
  {
    assert Answers(g, g.filters[src.idx].inputs[src.next], up[src.idx][src.next]);
    var next := src.(next := src.next + 1);
    var node := SrcFiltergraph(g, g.filters[src.idx].inputs[src.next].value);
    StartedExactly(up, marks, t, src, rank);
    if node.Demuxed? {
      Stay(up, m, marks, t, src, rank);
      return false, next, depth, t;
    }
    if visited[node.idx] == Started {
      assert FedBy(up, src.idx, node.idx);
      CycleFound(up, t, src.idx, rank, [src.idx, node.idx], 0);
      return true, src, depth, t;
    }
    Descend(up, m, marks, t, src, rank, node.idx);
    PushEntry(stack, depth, next, t);
    return false, Pos(node.idx, 0), depth + 1, Push(t, next);
  }

  /** The move from a filtergraph that is done back to the one it was entered from. */
  method Return(src: Pos, visited: array<Mark>, stack: array<Pos>, depth: nat,
                ghost up: Feeds, ghost m: nat, ghost marks: seq<Mark>, ghost t: Trail, ghost rank: map<nat, nat>)
    returns (src': Pos, ghost r: map<nat, nat>)
    requires Searching(up, marks, t, src, rank) && src.next == |up[src.idx]| && t.Push?
    requires OnStack(stack[..], depth, t) && visited[..] == marks[src.idx := Started]
    modifies visited
    ensures depth > 0 && src' == t.top && OnStack(stack[..], depth - 1, t.below)
    ensures visited[..] == marks[src.idx := Done]
    ensures Searching(up, marks[src.idx := Done], t.below, src', r) && rank.Keys <= r.Keys
    ensures Todo(up, m, t) < Todo(up, m, Push(t, src))
  {
    visited[src.idx] := Done;
    r := Ascend(up, m, marks, t, src, rank);
    TopEntry(t, stack[..], depth);
    src' := stack[depth - 1];
  }

  /** `check_acyclic_for_output`. The ghost layering `known` carries what earlier searches
      have established; a successful search adds `start` and everything above it. */
  method CheckAcyclicForOutput(g: Graph, start: nat, visited: array<Mark>, stack: array<Pos>,
                               ghost up: Feeds, ghost known: map<nat, nat>)
    returns (ok: bool, ghost rank: map<nat, nat>)
    requires Resolved(g, up)
    requires start < |g.filters| && Layered(up, known)
    requires visited.Length == |g.filters| && stack.Length == |g.filters|
    modifies visited, stack
    ensures ok <==> !CycleAbove(up, start)
    ensures Layered(up, rank) && known.Keys <= rank.Keys
    ensures ok ==> start in rank
  {
    rank := known;
    ghost var m := InputBound(up);
    var depth := 0;
    forall i | 0 <= i < visited.Length { visited[i] := New; }
    var src := Pos(start, 0);
    ghost var t, marks := Bottom, visited[..];
    while true
      invariant 0 <= depth && OnStack(stack[..], depth, t) && visited[..] == marks
      invariant Origin(t, src.idx) == start
      invariant Searching(up, marks, t, src, rank) && known.Keys <= rank.Keys
      decreases Todo(up, m, Push(t, src))
    {
      visited[src.idx] := Started;
      if src.next < |g.filters[src.idx].inputs| {
        var cycle;
        ghost var above;
        cycle, src, depth, above := LookUp(g, src, visited, stack, depth, up, m, marks, t, rank);
        if cycle {
          return false, rank;
        }
        t, marks := above, visited[..];
      } else if depth == 0 {
        visited[src.idx] := Done;
        assert t == Bottom;
        rank := Finish(up, rank, src.idx);
        LayeredHasNoCycle(up, rank, src.idx);
        return true, rank;
      } else {
        assert t.Push?;
        src, rank := Return(src, visited, stack, depth, up, m, marks, t, rank);
        depth, t, marks := depth - 1, t.below, visited[..];
      }
    }
  }

  /** `check_acyclic`, the search repeated from every filtergraph: it succeeds exactly when no
      filtergraph feeds itself, and then the filtergraphs can be layered. */
  method CheckAcyclic(g: Graph, ghost up: Feeds) returns (ok: bool, ghost rank: map<nat, nat>)
    requires Resolved(g, up)
    ensures ok <==> forall f | 0 <= f < |g.filters| :: !CycleAbove(up, f)
    ensures ok ==> Layered(up, rank) && forall f | 0 <= f < |g.filters| :: f in rank
  {
    rank := map[];
    var visited := new Mark[|g.filters|](_ => New);
    var stack := new Pos[|g.filters|](_ => Pos(0, 0));
    for i := 0 to |g.filters|
      invariant Layered(up, rank) && forall f | 0 <= f < i :: f in rank && !CycleAbove(up, f)
    {
      ok, rank := CheckAcyclicForOutput(g, i, visited, stack, up, rank);
      if !ok {
        return false, rank;
      }
      forall f | 0 <= f <= i ensures !CycleAbove(up, f) {
        LayeredHasNoCycle(up, rank, f);
      }
    }
    ok := true;
  }
}

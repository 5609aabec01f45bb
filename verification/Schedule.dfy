/** The scheduling decision: which demuxers and filtergraphs may run. */
module Schedule {
  import opened Topology
  import opened Acyclic
  import opened Sources
  import opened Timestamps

  /** One flag per demuxer and per filtergraph: choked. */
  datatype Flags = Flags(demux: seq<bool>, filters: seq<bool>)

  predicate Shaped(g: Graph, c: Flags) {
    |c.demux| == |g.demux| && |c.filters| == |g.filters|
  }

  predicate IsFree(c: Flags, t: Task) {
    match t
    case DemuxTask(i) => i < |c.demux| && !c.demux[i]
    case FilterTask(f) => f < |c.filters| && !c.filters[f]
  }

  /** The tasks that may run. */
  ghost function Free(c: Flags): iset<Task> {
    iset t: Task | IsFree(c, t)
  }

  function Release(c: Flags, t: Task): Flags
    requires t.DemuxTask? ==> t.idx < |c.demux|
    requires t.FilterTask? ==> t.idx < |c.filters|
  {
    match t
    case DemuxTask(i) => c.(demux := c.demux[i := false])
    case FilterTask(f) => c.(filters := c.filters[f := false])
  }

  function ChokedDemuxers(c: Flags): set<nat> {
    set i | 0 <= i < |c.demux| && c.demux[i]
  }

  // ----- the set the update has to compute

  /** The roots of all filtergraphs met going down from `k`. */
  ghost function RootsBelow(g: Graph, fs: seq<FilterState>, k: Sink): iset<Task> {
    iset t: Task, f: nat | Reaches(g, k, f) && Root(g, fs, Filtered(f, 0)) == Some(t) :: t
  }

  ghost predicate ClosedAt(g: Graph, fs: seq<FilterState>, ts: iset<Task>, d: nat) {
    d < |g.demux| ==>
      forall j | 0 <= j < |g.demux[d]| && g.demux[d][j] != [] :: RootsBelow(g, fs, g.demux[d][j][0]) <= ts
  }

  /** With a demuxer, `ts` holds the root of every filtergraph the demuxer's streams reach. */
  ghost predicate ClosedSet(g: Graph, fs: seq<FilterState>, ts: iset<Task>) {
    forall d | DemuxTask(d) in ts :: ClosedAt(g, fs, ts, d)
  }

  /** The least closed set that contains `seeds`. */
  ghost function Needed(g: Graph, fs: seq<FilterState>, seeds: iset<Task>): iset<Task> {
    iset t: Task | InEvery(g, fs, seeds, t)
  }

  ghost predicate InEvery(g: Graph, fs: seq<FilterState>, seeds: iset<Task>, t: Task) {
    forall ts | ClosedSet(g, fs, ts) && seeds <= ts :: t in ts
  }

  // ----- how one walk changes the flags

  /** From `c` to `d` exactly what `seeds` calls for has been released; the demuxers in `open`
      are those whose streams are still being visited. */
  ghost predicate Grows(g: Graph, fs: seq<FilterState>, c: Flags, d: Flags, seeds: iset<Task>, open: set<nat>) {
    && Shaped(g, d)
    && Free(c) <= Free(d)
    && seeds <= Free(d)
    && (forall ts | ClosedSet(g, fs, ts) && Free(c) <= ts && seeds <= ts :: Free(d) <= ts)
    && ClosedBut(g, fs, d, open)
  }

  ghost predicate ClosedBut(g: Graph, fs: seq<FilterState>, c: Flags, open: set<nat>) {
    forall i: nat | DemuxTask(i) in Free(c) && i !in open :: ClosedAt(g, fs, Free(c), i)
  }

  lemma GrowsNot(g: Graph, fs: seq<FilterState>, c: Flags, open: set<nat>)
    requires Shaped(g, c) && ClosedBut(g, fs, c, open)
    ensures forall seeds | seeds <= Free(c) :: Grows(g, fs, c, c, seeds, open)
  {
  }

  lemma GrowsThen(g: Graph, fs: seq<FilterState>, c: Flags, d: Flags, e: Flags, s: iset<Task>, t: iset<Task>,
      open: set<nat>)
    requires Grows(g, fs, c, d, s, open) && Grows(g, fs, d, e, t, open)
    ensures Grows(g, fs, c, e, s + t, open)
  {
    forall ts | ClosedSet(g, fs, ts) && Free(c) <= ts && s + t <= ts ensures Free(e) <= ts {
      assert Free(d) <= ts;
    }
  }

  lemma ChokedShrinks(c: Flags, d: Flags)
    requires Free(c) <= Free(d) && |c.demux| == |d.demux|
    ensures ChokedDemuxers(d) <= ChokedDemuxers(c)
  {
    forall i | i in ChokedDemuxers(d) ensures i in ChokedDemuxers(c) {
      assert DemuxTask(i) !in Free(c);
    }
  }

  lemma ReleaseFrees(c: Flags, t: Task)
    requires t.DemuxTask? ==> t.idx < |c.demux|
    requires t.FilterTask? ==> t.idx < |c.filters|
    ensures Free(Release(c, t)) == Free(c) + iset{t}
    ensures t.DemuxTask? && c.demux[t.idx] ==> ChokedDemuxers(Release(c, t)) < ChokedDemuxers(c)
  {
    var d := Release(c, t);
    forall x: Task ensures x in Free(d) <==> x in Free(c) || x == t {
    }
    if t.DemuxTask? && c.demux[t.idx] {
      ChokedShrinks(c, d);
      assert t.idx in ChokedDemuxers(c) && t.idx !in ChokedDemuxers(d);
    }
  }

  /** Releasing a filtergraph is all there is to do for it. */
  lemma GrowsFilter(g: Graph, fs: seq<FilterState>, c: Flags, f: nat, open: set<nat>)
    requires Shaped(g, c) && ClosedBut(g, fs, c, open) && f < |g.filters|
    ensures Grows(g, fs, c, Release(c, FilterTask(f)), iset{FilterTask(f)}, open)
  {
    var d := Release(c, FilterTask(f));
    ReleaseFrees(c, FilterTask(f));
    forall i: nat | DemuxTask(i) in Free(d) && i !in open ensures ClosedAt(g, fs, Free(d), i) {
      assert DemuxTask(i) in Free(c);
      assert ClosedAt(g, fs, Free(c), i);
    }
  }

  /** Releasing a demuxer, and then whatever its streams need, closes the demuxer. */
  lemma GrowsDemux(g: Graph, fs: seq<FilterState>, c: Flags, d: Flags, i: nat, open: set<nat>)
    requires Shaped(g, c) && ClosedBut(g, fs, c, open) && i < |g.demux|
    requires Grows(g, fs, Release(c, DemuxTask(i)), d, StreamNeeds(g, fs, i, |g.demux[i]|), open + {i})
    ensures Grows(g, fs, c, d, iset{DemuxTask(i)}, open)
  {
    var t := DemuxTask(i);
    ReleaseFrees(c, t);
    var needs := StreamNeeds(g, fs, i, |g.demux[i]|);
    assert t in Free(d);
    assert ClosedAt(g, fs, Free(d), i) by {
      forall j | 0 <= j < |g.demux[i]| && g.demux[i][j] != [] ensures RootsBelow(g, fs, g.demux[i][j][0]) <= Free(d) {
        assert RootsBelow(g, fs, g.demux[i][j][0]) <= needs;
      }
    }
    forall ts | ClosedSet(g, fs, ts) && Free(c) <= ts && iset{t} <= ts ensures Free(d) <= ts {
      assert t in ts && ClosedAt(g, fs, ts, i);
      assert needs <= ts;
    }
  }

  /** What the first `n` streams of demuxer `i` need. */
  ghost function StreamNeeds(g: Graph, fs: seq<FilterState>, i: nat, n: nat): iset<Task>
    requires i < |g.demux| && n <= |g.demux[i]|
  {
    iset t: Task, j: nat | j < n && g.demux[i][j] != [] && t in RootsBelow(g, fs, g.demux[i][j][0]) :: t
  }

  lemma StreamNeedsNext(g: Graph, fs: seq<FilterState>, i: nat, n: nat)
    requires i < |g.demux| && n < |g.demux[i]| && g.demux[i][n] != []
    ensures StreamNeeds(g, fs, i, n + 1) == StreamNeeds(g, fs, i, n) + RootsBelow(g, fs, g.demux[i][n][0])
  {
  }

  /** What the first `n` of the next sinks need. */
  ghost function SinkNeeds(g: Graph, fs: seq<FilterState>, ks: seq<Sink>, n: nat): iset<Task>
    requires n <= |ks|
  {
    iset t: Task, j: nat | j < n && t in RootsBelow(g, fs, ks[j]) :: t
  }

  lemma SinkNeedsNext(g: Graph, fs: seq<FilterState>, ks: seq<Sink>, n: nat)
    requires n < |ks|
    ensures SinkNeeds(g, fs, ks, n + 1) == SinkNeeds(g, fs, ks, n) + RootsBelow(g, fs, ks[n])
  {
  }

  lemma RootsBelowUnfold(g: Graph, fs: seq<FilterState>, k: Sink, ks: seq<Sink>)
    requires !k.ToFilter?
    requires forall n :: NextDown(g, k, n) <==> n in ks
    ensures RootsBelow(g, fs, k) == SinkNeeds(g, fs, ks, |ks|)
  {
    forall t: Task ensures t in RootsBelow(g, fs, k) <==> t in SinkNeeds(g, fs, ks, |ks|) {
      if t in RootsBelow(g, fs, k) {
        var f: nat :| Reaches(g, k, f) && Root(g, fs, Filtered(f, 0)) == Some(t);
        ReachesUnfolds(g, k, f);
        var n :| NextDown(g, k, n) && Reaches(g, n, f);
        var j :| 0 <= j < |ks| && ks[j] == n;
        assert t in RootsBelow(g, fs, ks[j]);
      }
      if t in SinkNeeds(g, fs, ks, |ks|) {
        var j: nat :| j < |ks| && t in RootsBelow(g, fs, ks[j]);
        var f: nat :| Reaches(g, ks[j], f) && Root(g, fs, Filtered(f, 0)) == Some(t);
        assert NextDown(g, k, ks[j]);
        ReachesUnfolds(g, k, f);
      }
    }
  }

  lemma RootsBelowFilter(g: Graph, fs: seq<FilterState>, f: nat, j: nat)
    ensures RootsBelow(g, fs, ToFilter(f, j)) == iset t: Task | Root(g, fs, Filtered(f, 0)) == Some(t)
  {
    forall x: nat ensures Reaches(g, ToFilter(f, j), x) <==> x == f {
      ReachesUnfolds(g, ToFilter(f, j), x);
    }
  }

  /** The first destination of every output of a decoder. */
  function FirstDests(outputs: seq<seq<Sink>>): (ks: seq<Sink>)
    requires forall o | 0 <= o < |outputs| :: outputs[o] != []
    ensures |ks| == |outputs| && forall o | 0 <= o < |ks| :: ks[o] == outputs[o][0]
  {
    seq(|outputs|, o requires 0 <= o < |outputs| => outputs[o][0])
  }

  // ----- the state of the scheduler

  const SCHEDULE_TOLERANCE: int := 100_000

  datatype MuxStream = MuxStream(lastDts: int, sourceFinished: bool)

  predicate InRange(x: int) {
    AV_NOPTS_VALUE <= x <= INT64_MAX
  }

  predicate ValidMux(g: Graph, mux: seq<seq<MuxStream>>) {
    && |mux| == |g.mux|
    && (forall i | 0 <= i < |mux| :: |mux[i]| == |g.mux[i]|)
    && (forall i, j | 0 <= i < |mux| && 0 <= j < |mux[i]| :: InRange(mux[i][j].lastDts))
  }

  // ----- the trailing timestamp

  ghost predicate Counted(mux: seq<seq<MuxStream>>, countFinished: bool, i: nat, j: nat) {
    i < |mux| && j < |mux[i]| && (countFinished || !mux[i][j].sourceFinished)
  }

  ghost predicate Unknown(mux: seq<seq<MuxStream>>, countFinished: bool) {
    exists i: nat, j: nat :: Counted(mux, countFinished, i, j) && mux[i][j].lastDts == AV_NOPTS_VALUE
  }

  ghost predicate Known(mux: seq<seq<MuxStream>>, countFinished: bool) {
    exists i: nat, j: nat :: Counted(mux, countFinished, i, j) && mux[i][j].lastDts < INT64_MAX
  }

  /** `d` is the least dts of the streams counted, or unknown if one of them, or all, are. */
  ghost predicate IsTrailing(mux: seq<seq<MuxStream>>, countFinished: bool, d: int) {
    if Unknown(mux, countFinished) || !Known(mux, countFinished) then d == AV_NOPTS_VALUE
    else
      && (exists i: nat, j: nat :: Counted(mux, countFinished, i, j) && mux[i][j].lastDts == d)
      && (forall i: nat, j: nat | Counted(mux, countFinished, i, j) :: d <= mux[i][j].lastDts)
  }

  /** An unfinished stream not too far ahead of the trailing one. */
  predicate Eligible(mux: seq<seq<MuxStream>>, dts: int, i: nat, j: nat) {
    && i < |mux| && j < |mux[i]| && !mux[i][j].sourceFinished
    && !(dts == AV_NOPTS_VALUE && mux[i][j].lastDts != AV_NOPTS_VALUE)
    && !(dts != AV_NOPTS_VALUE && mux[i][j].lastDts - dts >= SCHEDULE_TOLERANCE)
  }

  ghost predicate SomeEligible(mux: seq<seq<MuxStream>>, dts: int) {
    exists i: nat, j: nat :: Eligible(mux, dts, i, j)
  }

  /** A filtergraph input that nobody reads any more, but that is still being fed. */
  predicate ClosedButFed(fs: seq<FilterState>, f: nat, j: nat) {
    f < |fs| && j < |fs[f].inputs| && fs[f].inputs[j].receiveFinished && !fs[f].inputs[j].sendFinished
  }

  // ----- the decision

  ghost predicate MuxAsks(g: Graph, mux: seq<seq<MuxStream>>, dts: int, i: nat, j: nat, s: Source) {
    Eligible(mux, dts, i, j) && i < |g.mux| && j < |g.mux[i]| && g.mux[i][j] == Some(s)
  }

  ghost predicate InputAsks(g: Graph, fs: seq<FilterState>, f: nat, j: nat, s: Source) {
    ClosedButFed(fs, f, j) && f < |g.filters| && j < |g.filters[f].inputs| && g.filters[f].inputs[j] == Some(s)
  }

  /** The roots of the eligible muxer streams. */
  ghost function MuxSeeds(g: Graph, mux: seq<seq<MuxStream>>, fs: seq<FilterState>, dts: int): iset<Task> {
    iset t: Task, i: nat, j: nat, s: Source | MuxAsks(g, mux, dts, i, j, s) && Root(g, fs, s) == Some(t) :: t
  }

  /** The roots of the sources that feed closed filtergraph inputs. */
  ghost function InputSeeds(g: Graph, fs: seq<FilterState>): iset<Task> {
    iset t: Task, f: nat, j: nat, s: Source | InputAsks(g, fs, f, j, s) && Root(g, fs, s) == Some(t) :: t
  }

  ghost function Seeds(g: Graph, mux: seq<seq<MuxStream>>, fs: seq<FilterState>, dts: int): iset<Task> {
    MuxSeeds(g, mux, fs, dts) + InputSeeds(g, fs)
  }

  function FirstUnexited(exited: seq<bool>, i: nat): (r: Option<nat>)
    requires i <= |exited|
    ensures r.Some? ==> i <= r.value < |exited| && !exited[r.value] && forall k | i <= k < r.value :: exited[k]
    ensures r.None? ==> forall k | i <= k < |exited| :: exited[k]
    decreases |exited| - i
  {
    if i == |exited| then None else if !exited[i] then Some(i) else FirstUnexited(exited, i + 1)
  }

  function Exits(fs: seq<FilterState>): (r: seq<bool>)
    ensures |r| == |fs| && forall f | 0 <= f < |r| :: r[f] == fs[f].exited
  {
    seq(|fs|, f requires 0 <= f < |fs| => fs[f].exited)
  }

  /** The first demuxer, or failing that filtergraph, that has not exited. */
  function FirstLeft(demuxExited: seq<bool>, fs: seq<FilterState>): (r: Option<Task>)
    ensures forall i: nat | r == Some(DemuxTask(i)) ::
      i < |demuxExited| && !demuxExited[i] && forall k | 0 <= k < i :: demuxExited[k]
    ensures forall f: nat | r == Some(FilterTask(f)) ::
      && f < |fs| && !fs[f].exited && (forall k | 0 <= k < f :: fs[k].exited)
      && forall k | 0 <= k < |demuxExited| :: demuxExited[k]
    ensures r.None? ==>
      (forall k | 0 <= k < |demuxExited| :: demuxExited[k]) && forall k | 0 <= k < |fs| :: fs[k].exited
  {
    match FirstUnexited(demuxExited, 0)
    case Some(i) => Some(DemuxTask(i))
    case None =>
      match FirstUnexited(Exits(fs), 0)
      case Some(f) => Some(FilterTask(f))
      case None => None
  }

  ghost function Only(t: Option<Task>): iset<Task> {
    match t case None => iset{} case Some(x) => iset{x}
  }

  ghost function Fallback(mux: seq<seq<MuxStream>>, demuxExited: seq<bool>, fs: seq<FilterState>,
      dts: int): iset<Task> {
    if SomeEligible(mux, dts) then iset{} else Only(FirstLeft(demuxExited, fs))
  }

  /** What an update decides: the tasks that may run are the least closed set the muxer streams
      and the closed inputs call for and, if no muxer stream is eligible, the first task left. */
  ghost predicate Decided(g: Graph, mux: seq<seq<MuxStream>>, fs: seq<FilterState>, demuxExited: seq<bool>,
                          dts: int, c: Flags) {
    && IsTrailing(mux, false, dts)
    && Shaped(g, c)
    && Free(c) == Needed(g, fs, Seeds(g, mux, fs, dts)) + Fallback(mux, demuxExited, fs, dts)
  }

  // ----- what the decision means

  /** Some muxer stream is eligible exactly when an unfinished one has a dts that is not the
      largest possible; a trailing one always is. */
  lemma EligibleIff(mux: seq<seq<MuxStream>>, dts: int)
    requires IsTrailing(mux, false, dts)
    requires forall i, j | 0 <= i < |mux| && 0 <= j < |mux[i]| :: InRange(mux[i][j].lastDts)
    ensures SomeEligible(mux, dts) <==> Known(mux, false)
    ensures forall i: nat, j: nat | Counted(mux, false, i, j) && mux[i][j].lastDts == dts :: Eligible(mux, dts, i, j)
    ensures Known(mux, false) ==> exists i: nat, j: nat :: Counted(mux, false, i, j) && mux[i][j].lastDts == dts
  {
    if i: nat, j: nat :| Eligible(mux, dts, i, j) {
      assert Counted(mux, false, i, j);
      if dts == AV_NOPTS_VALUE {
        assert mux[i][j].lastDts < INT64_MAX;
      }
    }
    if Known(mux, false) {
      if Unknown(mux, false) {
        var i: nat, j: nat :| Counted(mux, false, i, j) && mux[i][j].lastDts == AV_NOPTS_VALUE;
        assert Eligible(mux, dts, i, j);
      } else {
        var i: nat, j: nat :| Counted(mux, false, i, j) && mux[i][j].lastDts == dts;
        assert Eligible(mux, dts, i, j);
      }
    }
  }

  lemma NeededHasSeeds(g: Graph, fs: seq<FilterState>, seeds: iset<Task>)
    ensures seeds <= Needed(g, fs, seeds)
    ensures seeds == iset{} ==> Needed(g, fs, seeds) == iset{}
  {
    if seeds == iset{} {
      var none: iset<Task> := iset{};
      assert ClosedSet(g, fs, none);
    }
  }

  /** The root of a trailing unfinished muxer stream may run. */
  lemma TrailingRootRuns(g: Graph, layers: map<nat, nat>, mux: seq<seq<MuxStream>>, fs: seq<FilterState>,
                         demuxExited: seq<bool>, dts: int, c: Flags, i: nat, j: nat)
    requires Walkable(g, layers) && Fits(g, fs) && ValidMux(g, mux)
    requires Decided(g, mux, fs, demuxExited, dts, c)
    requires Counted(mux, false, i, j) && mux[i][j].lastDts == dts
    ensures g.mux[i][j].Some? && Root(g, fs, g.mux[i][j].value).Some?
    ensures Root(g, fs, g.mux[i][j].value).value in Free(c)
  {
    EligibleIff(mux, dts);
    var s := g.mux[i][j].value;
    assert SourceAgrees(g, ToMux(i, j));
    RootExists(g, layers, fs, s);
    assert MuxAsks(g, mux, dts, i, j, s);
    assert Root(g, fs, s).value in Seeds(g, mux, fs, dts);
    NeededHasSeeds(g, fs, Seeds(g, mux, fs, dts));
  }

  // ----- which muxer streams are asked for

  ghost predicate Unfinished(mux: seq<seq<MuxStream>>, i: nat, j: nat) {
    i < |mux| && j < |mux[i]| && !mux[i][j].sourceFinished
  }

  /** A tenth of a second behind it, at the most, stands any other unfinished stream. */
  ghost predicate NearAll(mux: seq<seq<MuxStream>>, i: nat, j: nat)
    requires Unfinished(mux, i, j)
  {
    forall a: nat, b: nat | Unfinished(mux, a, b) ::
      mux[a][b].lastDts != AV_NOPTS_VALUE && mux[i][j].lastDts - mux[a][b].lastDts < 100_000
  }

  /** The unfinished streams that data is wanted for: those without a timestamp; and while there
      are none, those near all others, unless all stand at the largest dts. */
  ghost predicate AskedFor(mux: seq<seq<MuxStream>>, i: nat, j: nat) {
    && Unfinished(mux, i, j)
    && (mux[i][j].lastDts == AV_NOPTS_VALUE ||
        (NearAll(mux, i, j) && exists a: nat, b: nat :: Unfinished(mux, a, b) && mux[a][b].lastDts < INT64_MAX))
  }

  /** These are the streams the first pass lets through, both ways. */
  lemma AskedForIff(mux: seq<seq<MuxStream>>, dts: int, i: nat, j: nat)
    requires IsTrailing(mux, false, dts)
    requires forall i, j | 0 <= i < |mux| && 0 <= j < |mux[i]| :: InRange(mux[i][j].lastDts)
    ensures Eligible(mux, dts, i, j) <==> AskedFor(mux, i, j)
  {
    if Unfinished(mux, i, j) {
      assert Counted(mux, false, i, j);
      assert forall a: nat, b: nat :: Counted(mux, false, a, b) <==> Unfinished(mux, a, b);
      if Unknown(mux, false) {
        var a: nat, b: nat :| Counted(mux, false, a, b) && mux[a][b].lastDts == AV_NOPTS_VALUE;
        assert Unfinished(mux, a, b);
      } else if Known(mux, false) {
        var a: nat, b: nat :| Counted(mux, false, a, b) && mux[a][b].lastDts == dts;
        assert Unfinished(mux, a, b);
        var x: nat, y: nat :| Counted(mux, false, x, y) && mux[x][y].lastDts < INT64_MAX;
        assert Unfinished(mux, x, y);
      }
    }
  }

  ghost predicate RootAsked(g: Graph, mux: seq<seq<MuxStream>>, fs: seq<FilterState>, i: nat, j: nat, t: Task) {
    && AskedFor(mux, i, j) && i < |g.mux| && j < |g.mux[i]|
    && g.mux[i][j].Some? && Root(g, fs, g.mux[i][j].value) == Some(t)
  }

  /** The roots of the streams asked for. */
  ghost function AskedRoots(g: Graph, mux: seq<seq<MuxStream>>, fs: seq<FilterState>): iset<Task> {
    iset t: Task, i: nat, j: nat | RootAsked(g, mux, fs, i, j, t) :: t
  }

  /** After an update exactly those tasks may run that the streams asked for and the closed inputs
      need and, if no stream is asked for, the first task left. */
  lemma ReleasedIff(g: Graph, mux: seq<seq<MuxStream>>, fs: seq<FilterState>, demuxExited: seq<bool>, dts: int,
                    c: Flags)
    requires ValidMux(g, mux) && Decided(g, mux, fs, demuxExited, dts, c)
    ensures Free(c) == Needed(g, fs, AskedRoots(g, mux, fs) + InputSeeds(g, fs)) +
      (if exists i: nat, j: nat :: AskedFor(mux, i, j) then iset{} else Only(FirstLeft(demuxExited, fs)))
  {
    forall i: nat, j: nat ensures Eligible(mux, dts, i, j) <==> AskedFor(mux, i, j) {
      AskedForIff(mux, dts, i, j);
    }
    forall t ensures t in MuxSeeds(g, mux, fs, dts) <==> t in AskedRoots(g, mux, fs) {
      if t in AskedRoots(g, mux, fs) {
        var i: nat, j: nat :| RootAsked(g, mux, fs, i, j, t);
        assert MuxAsks(g, mux, dts, i, j, g.mux[i][j].value);
      }
      if t in MuxSeeds(g, mux, fs, dts) {
        var i: nat, j: nat, s: Source :| MuxAsks(g, mux, dts, i, j, s) && Root(g, fs, s) == Some(t);
        assert RootAsked(g, mux, fs, i, j, t);
      }
    }
    assert MuxSeeds(g, mux, fs, dts) == AskedRoots(g, mux, fs);
    assert SomeEligible(mux, dts) <==> exists i: nat, j: nat :: AskedFor(mux, i, j);
  }

  /** In particular, the root of every unfinished stream below the largest dts may run if every
      unfinished stream has a dts and it stands less than 100000 above each of them. */
  lemma NearRootRuns(g: Graph, layers: map<nat, nat>, mux: seq<seq<MuxStream>>, fs: seq<FilterState>,
                     demuxExited: seq<bool>, dts: int, c: Flags, i: nat, j: nat)
    requires Walkable(g, layers) && Fits(g, fs) && ValidMux(g, mux)
    requires Decided(g, mux, fs, demuxExited, dts, c)
    requires Unfinished(mux, i, j) && mux[i][j].lastDts < INT64_MAX
    requires forall a: nat, b: nat | Unfinished(mux, a, b) ::
      mux[a][b].lastDts != AV_NOPTS_VALUE && mux[i][j].lastDts - mux[a][b].lastDts < 100_000
    ensures g.mux[i][j].Some? && Root(g, fs, g.mux[i][j].value).Some?
    ensures Root(g, fs, g.mux[i][j].value).value in Free(c)
  {
    var s := g.mux[i][j].value;
    assert SourceAgrees(g, ToMux(i, j));
    RootExists(g, layers, fs, s);
    assert NearAll(mux, i, j) && AskedFor(mux, i, j);
    assert RootAsked(g, mux, fs, i, j, Root(g, fs, s).value);
    ReleasedIff(g, mux, fs, demuxExited, dts, c);
    NeededHasSeeds(g, fs, AskedRoots(g, mux, fs) + InputSeeds(g, fs));
  }

  /** Nothing at all may run exactly when no unfinished muxer stream is left but such as stand
      at the largest dts, every task has exited, and no closed input is still being fed. */
  lemma NothingRunsIff(g: Graph, layers: map<nat, nat>, mux: seq<seq<MuxStream>>, fs: seq<FilterState>,
                       demuxExited: seq<bool>, dts: int, c: Flags)
    requires Walkable(g, layers) && Fits(g, fs) && ValidMux(g, mux)
    requires Decided(g, mux, fs, demuxExited, dts, c)
    ensures Free(c) == iset{} <==>
      && !Known(mux, false)
      && (forall i | 0 <= i < |demuxExited| :: demuxExited[i])
      && (forall f | 0 <= f < |fs| :: fs[f].exited)
      && (forall f: nat, j: nat :: !ClosedButFed(fs, f, j))
  {
    EligibleIff(mux, dts);
    var seeds := Seeds(g, mux, fs, dts);
    NeededHasSeeds(g, fs, seeds);
    if f: nat, j: nat :| ClosedButFed(fs, f, j) {
      InputEnds(g, f, j);
      var s := g.filters[f].inputs[j].value;
      RootExists(g, layers, fs, s);
      assert InputAsks(g, fs, f, j, s);
      assert Root(g, fs, s).value in seeds;
    }
    if Known(mux, false) {
      var i: nat, j: nat :| Counted(mux, false, i, j) && mux[i][j].lastDts == dts;
      TrailingRootRuns(g, layers, mux, fs, demuxExited, dts, c, i, j);
    } else {
      assert forall i: nat, j: nat, s :: !MuxAsks(g, mux, dts, i, j, s);
      if FirstLeft(demuxExited, fs).Some? {
        assert FirstLeft(demuxExited, fs).value in Fallback(mux, demuxExited, fs, dts);
      }
      if forall f: nat, j: nat :: !ClosedButFed(fs, f, j) {
        assert seeds == iset{};
      }
    }
  }

  /** A muxer stream that is never finished, such as one whose finish was refused, holds all others
      back: a stream is asked for only if it is less than the tolerance ahead of it, or has no
      timestamp; while it has none itself, only streams without one. */
  lemma UnfinishedHoldsBack(mux: seq<seq<MuxStream>>, dts: int, i: nat, j: nat, a: nat, b: nat)
    requires IsTrailing(mux, false, dts) && Counted(mux, false, i, j) && Eligible(mux, dts, a, b)
    requires forall i, j | 0 <= i < |mux| && 0 <= j < |mux[i]| :: InRange(mux[i][j].lastDts)
    ensures mux[a][b].lastDts == AV_NOPTS_VALUE ||
      (mux[i][j].lastDts != AV_NOPTS_VALUE && mux[a][b].lastDts - mux[i][j].lastDts < SCHEDULE_TOLERANCE)
  {
    if mux[i][j].lastDts == AV_NOPTS_VALUE {
      assert Unknown(mux, false);
    }
  }

  /** And while it stands below the largest dts, some task always may run, even if all that can
      feed it have exited. */
  lemma UnfinishedKeepsSomeFree(g: Graph, layers: map<nat, nat>, mux: seq<seq<MuxStream>>, fs: seq<FilterState>,
                                demuxExited: seq<bool>, dts: int, c: Flags, i: nat, j: nat)
    requires Walkable(g, layers) && Fits(g, fs) && ValidMux(g, mux)
    requires Decided(g, mux, fs, demuxExited, dts, c)
    requires Counted(mux, false, i, j) && mux[i][j].lastDts < INT64_MAX
    ensures Free(c) != iset{}
    ensures Fallback(mux, demuxExited, fs, dts) == iset{}
  {
    assert Known(mux, false);
    EligibleIff(mux, dts);
    NothingRunsIff(g, layers, mux, fs, demuxExited, dts, c);
  }

  /** Demuxers without streams have no thread; every filtergraph has one. */
  predicate HasThread(g: Graph, t: Task) {
    match t
    case DemuxTask(i) => i < |g.demux| && g.demux[i] != []
    case FilterTask(f) => f < |g.filters|
  }

  /** A demuxer without streams is never started, and so does not exit before a stop. The task
      that the fallback releases can really run exactly if in front of every such demuxer there is
      one with streams that has not exited. */
  lemma FallbackRunsIff(g: Graph, demuxExited: seq<bool>, fs: seq<FilterState>)
    requires |demuxExited| == |g.demux| && |fs| == |g.filters| && FirstLeft(demuxExited, fs).Some?
    requires forall m | 0 <= m < |g.demux| && g.demux[m] == [] :: !demuxExited[m]
    ensures HasThread(g, FirstLeft(demuxExited, fs).value) <==>
      forall m | 0 <= m < |g.demux| && g.demux[m] == [] :: exists i :: 0 <= i < m && g.demux[i] != [] && !demuxExited[i]
  {
    var first := FirstUnexited(demuxExited, 0);
    if first.Some? {
      var i := first.value;
      if g.demux[i] != [] {
        forall m | 0 <= m < |g.demux| && g.demux[m] == []
          ensures exists i :: 0 <= i < m && g.demux[i] != [] && !demuxExited[i]
        {
          assert 0 <= i < m && g.demux[i] != [] && !demuxExited[i];
        }
      }
    }
  }

  /** The tasks that are asked for by what follows them do have a thread. */
  lemma {:induction false} RootHasThread(g: Graph, layers: map<nat, nat>, fs: seq<FilterState>, s: Source)
    requires Walkable(g, layers) && Fits(g, fs) && ValidSource(g, s)
    ensures Root(g, fs, s).Some? && HasThread(g, Root(g, fs, s).value)
    decreases Layer(g, layers, s), Height(g, s)
  {
    StepUp(g, layers, fs, s);
    RootUnfolds(g, fs, s);
    match NextUp(g, fs, s)
    case Up(x) => RootHasThread(g, layers, fs, x);
    case _ =>
  }

  lemma FilterRootHasThread(g: Graph, layers: map<nat, nat>, fs: seq<FilterState>, f: nat)
    requires Walkable(g, layers) && Fits(g, fs)
    ensures Root(g, fs, Filtered(f, 0)).Some? ==> HasThread(g, Root(g, fs, Filtered(f, 0)).value)
  {
    RootUnfolds(g, fs, Filtered(f, 0));
    if f < |g.filters| && fs[f].bestInput < |g.filters[f].inputs| {
      InputEnds(g, f, fs[f].bestInput);
      RootHasThread(g, layers, fs, g.filters[f].inputs[fs[f].bestInput].value);
    }
  }

  /** Every task that an update releases has a thread, but for the one released as a fallback. */
  lemma ReleasedHaveThreads(g: Graph, layers: map<nat, nat>, mux: seq<seq<MuxStream>>, fs: seq<FilterState>,
                            demuxExited: seq<bool>, dts: int, c: Flags)
    requires Walkable(g, layers) && Fits(g, fs) && ValidMux(g, mux)
    requires Decided(g, mux, fs, demuxExited, dts, c)
    ensures forall t | t in Free(c) && t !in Fallback(mux, demuxExited, fs, dts) :: HasThread(g, t)
  {
    var threads := iset t: Task | HasThread(g, t);
    forall d | DemuxTask(d) in threads ensures ClosedAt(g, fs, threads, d) {
      forall k, t | t in RootsBelow(g, fs, k) ensures t in threads {
        var f: nat :| Reaches(g, k, f) && Root(g, fs, Filtered(f, 0)) == Some(t);
        FilterRootHasThread(g, layers, fs, f);
      }
    }
    forall t | t in Seeds(g, mux, fs, dts) ensures t in threads {
      SeedHasThread(g, layers, mux, fs, dts, t);
    }
    assert ClosedSet(g, fs, threads);
    forall t | t in Needed(g, fs, Seeds(g, mux, fs, dts)) ensures HasThread(g, t) {
      assert InEvery(g, fs, Seeds(g, mux, fs, dts), t);
    }
  }

  lemma SeedHasThread(g: Graph, layers: map<nat, nat>, mux: seq<seq<MuxStream>>, fs: seq<FilterState>, dts: int,
                      t: Task)
    requires Walkable(g, layers) && Fits(g, fs) && t in Seeds(g, mux, fs, dts)
    ensures HasThread(g, t)
  {
    if i: nat, j: nat, s: Source :| MuxAsks(g, mux, dts, i, j, s) && Root(g, fs, s) == Some(t) {
      SourceHasThread(g, layers, fs, ToMux(i, j), s);
    } else {
      var f: nat, j: nat, s: Source :| InputAsks(g, fs, f, j, s) && Root(g, fs, s) == Some(t);
      SourceHasThread(g, layers, fs, ToFilter(f, j), s);
    }
  }

  lemma SourceHasThread(g: Graph, layers: map<nat, nat>, fs: seq<FilterState>, k: Sink, s: Source)
    requires Walkable(g, layers) && Fits(g, fs) && ValidSink(g, k) && SrcOf(g, k) == Some(s)
    ensures Root(g, fs, s).Some? && HasThread(g, Root(g, fs, s).value)
  {
    assert SourceAgrees(g, k);
    RootHasThread(g, layers, fs, s);
  }

  /** A walk started from nothing releases exactly the least closed set. */
  lemma GrowsFromNothing(g: Graph, fs: seq<FilterState>, c: Flags, d: Flags, seeds: iset<Task>)
    requires Free(c) == iset{} && Grows(g, fs, c, d, seeds, {})
    ensures Free(d) == Needed(g, fs, seeds)
  {
    assert ClosedSet(g, fs, Free(d));
    forall t | t in Free(d) ensures InEvery(g, fs, seeds, t) {
    }
  }

  /** A filtergraph that demuxer `d` feeds has `t` for its root. */
  ghost predicate FedRoot(g: Graph, fs: seq<FilterState>, d: nat, t: Task) {
    d < |g.demux| && exists j: nat, f: nat :: FedThrough(g, fs, d, j, f, t)
  }

  ghost predicate FedThrough(g: Graph, fs: seq<FilterState>, d: nat, j: nat, f: nat, t: Task)
    requires d < |g.demux|
  {
    j < |g.demux[d]| && g.demux[d][j] != [] && Reaches(g, g.demux[d][j][0], f) && Root(g, fs, Filtered(f, 0)) == Some(t)
  }

  /** A task is needed exactly if it is one of those called for, or the root of a filtergraph that
      a needed demuxer feeds: its packets will get there, wanted or not. */
  lemma NeededIff(g: Graph, fs: seq<FilterState>, seeds: iset<Task>, t: Task)
    ensures t in Needed(g, fs, seeds) <==>
      t in seeds || exists d: nat :: DemuxTask(d) in Needed(g, fs, seeds) && FedRoot(g, fs, d, t)
  {
    var needed := Needed(g, fs, seeds);
    if d: nat :| DemuxTask(d) in needed && FedRoot(g, fs, d, t) {
      forall ts | ClosedSet(g, fs, ts) && seeds <= ts ensures t in ts {
        FedInClosed(g, fs, ts, d, t);
      }
    }
    if t !in seeds && !exists d: nat :: DemuxTask(d) in needed && FedRoot(g, fs, d, t) {
      NeededWithout(g, fs, seeds, t);
      assert t !in needed - iset{t};
    }
  }

  lemma NeededWithout(g: Graph, fs: seq<FilterState>, seeds: iset<Task>, t: Task)
    requires t !in seeds && forall d: nat | DemuxTask(d) in Needed(g, fs, seeds) :: !FedRoot(g, fs, d, t)
    ensures var less := Needed(g, fs, seeds) - iset{t};
      ClosedSet(g, fs, less) && seeds <= less
  {
    var needed := Needed(g, fs, seeds);
    NeededIsClosed(g, fs, seeds);
    forall d: nat | DemuxTask(d) in needed - iset{t} ensures ClosedAt(g, fs, needed - iset{t}, d) {
      assert DemuxTask(d) in needed && ClosedAt(g, fs, needed, d);
      WithoutRoot(g, fs, needed, d, t);
    }
  }

  lemma FedInClosed(g: Graph, fs: seq<FilterState>, ts: iset<Task>, d: nat, t: Task)
    requires ClosedSet(g, fs, ts) && DemuxTask(d) in ts && FedRoot(g, fs, d, t)
    ensures t in ts
  {
    var j: nat, f: nat :| FedThrough(g, fs, d, j, f, t);
    assert ClosedAt(g, fs, ts, d) && t in RootsBelow(g, fs, g.demux[d][j][0]);
  }

  lemma WithoutRoot(g: Graph, fs: seq<FilterState>, ts: iset<Task>, d: nat, t: Task)
    requires ClosedAt(g, fs, ts, d) && !FedRoot(g, fs, d, t)
    ensures ClosedAt(g, fs, ts - iset{t}, d)
  {
    if d < |g.demux| {
      forall j | 0 <= j < |g.demux[d]| && g.demux[d][j] != []
        ensures RootsBelow(g, fs, g.demux[d][j][0]) <= ts - iset{t}
      {
        if t in RootsBelow(g, fs, g.demux[d][j][0]) {
          var f: nat :| Reaches(g, g.demux[d][j][0], f) && Root(g, fs, Filtered(f, 0)) == Some(t);
          assert FedThrough(g, fs, d, j, f, t);
        }
      }
    }
  }

  lemma NeededIsClosed(g: Graph, fs: seq<FilterState>, seeds: iset<Task>)
    ensures ClosedSet(g, fs, Needed(g, fs, seeds)) && seeds <= Needed(g, fs, seeds)
  {
    var needed := Needed(g, fs, seeds);
    forall d: nat | DemuxTask(d) in needed ensures ClosedAt(g, fs, needed, d) {
      forall ts | ClosedSet(g, fs, ts) && seeds <= ts ensures ClosedAt(g, fs, ts, d) && needed <= ts {
        assert DemuxTask(d) in ts;
      }
      if d < |g.demux| {
        forall j, t | 0 <= j < |g.demux[d]| && g.demux[d][j] != [] && t in RootsBelow(g, fs, g.demux[d][j][0])
          ensures t in needed
        {
        }
      }
    }
  }

  // ----- the seeds met so far, in the order of the loops

  predicate Earlier(a: nat, b: nat, i: nat, j: nat) {
    a < i || (a == i && b < j)
  }

  ghost function MuxSeedsTo(g: Graph, mux: seq<seq<MuxStream>>, fs: seq<FilterState>, dts: int, i: nat,
      j: nat): iset<Task> {
    iset t: Task, a: nat, b: nat, s: Source | Earlier(a, b, i, j) && MuxAsks(g, mux, dts, a, b, s) &&
      Root(g, fs, s) == Some(t) :: t
  }

  ghost function InputSeedsTo(g: Graph, fs: seq<FilterState>, i: nat, j: nat): iset<Task> {
    iset t: Task, a: nat, b: nat, s: Source | Earlier(a, b, i, j) && InputAsks(g, fs, a, b, s) &&
      Root(g, fs, s) == Some(t) :: t
  }

  ghost predicate EligibleTo(mux: seq<seq<MuxStream>>, dts: int, i: nat, j: nat) {
    exists a: nat, b: nat :: Earlier(a, b, i, j) && Eligible(mux, dts, a, b)
  }

  ghost function MuxSeed(g: Graph, mux: seq<seq<MuxStream>>, fs: seq<FilterState>, dts: int, i: nat, j: nat): iset<Task>
    requires ValidMux(g, mux) && i < |mux| && j < |mux[i]|
  {
    if Eligible(mux, dts, i, j) && g.mux[i][j].Some? then Only(Root(g, fs, g.mux[i][j].value)) else iset{}
  }

  lemma MuxSeedsNext(g: Graph, mux: seq<seq<MuxStream>>, fs: seq<FilterState>, dts: int, i: nat, j: nat)
    requires ValidMux(g, mux) && i < |mux| && j < |mux[i]| && g.mux[i][j].Some?
    requires Root(g, fs, g.mux[i][j].value).Some?
    ensures MuxSeedsTo(g, mux, fs, dts, i, j + 1) == MuxSeedsTo(g, mux, fs, dts, i, j) + MuxSeed(g, mux, fs, dts, i, j)
    ensures EligibleTo(mux, dts, i, j + 1) <==> EligibleTo(mux, dts, i, j) || Eligible(mux, dts, i, j)
  {
    var s := g.mux[i][j].value;
    if Eligible(mux, dts, i, j) {
      assert Earlier(i, j, i, j + 1) && MuxAsks(g, mux, dts, i, j, s);
    }
  }

  lemma MuxSeedsRow(g: Graph, mux: seq<seq<MuxStream>>, fs: seq<FilterState>, dts: int, i: nat)
    requires i < |mux|
    ensures MuxSeedsTo(g, mux, fs, dts, i + 1, 0) == MuxSeedsTo(g, mux, fs, dts, i, |mux[i]|)
    ensures EligibleTo(mux, dts, i + 1, 0) <==> EligibleTo(mux, dts, i, |mux[i]|)
  {
    assert forall a: nat, b: nat | Eligible(mux, dts, a, b) :: Earlier(a, b, i + 1, 0) <==> Earlier(a, b, i, |mux[i]|);
  }

  lemma MuxSeedsAll(g: Graph, mux: seq<seq<MuxStream>>, fs: seq<FilterState>, dts: int)
    ensures MuxSeedsTo(g, mux, fs, dts, |mux|, 0) == MuxSeeds(g, mux, fs, dts)
    ensures EligibleTo(mux, dts, |mux|, 0) <==> SomeEligible(mux, dts)
  {
    assert forall a: nat, b: nat | Eligible(mux, dts, a, b) :: Earlier(a, b, |mux|, 0);
  }

  lemma InputSeedsNext(g: Graph, fs: seq<FilterState>, i: nat, j: nat)
    requires Fits(g, fs) && i < |fs| && j < |fs[i].inputs| && g.filters[i].inputs[j].Some?
    requires Root(g, fs, g.filters[i].inputs[j].value).Some?
    ensures InputSeedsTo(g, fs, i, j + 1) == InputSeedsTo(g, fs, i, j) +
      (if ClosedButFed(fs, i, j) then iset{Root(g, fs, g.filters[i].inputs[j].value).value} else iset{})
  {
    var s := g.filters[i].inputs[j].value;
    if ClosedButFed(fs, i, j) {
      assert Earlier(i, j, i, j + 1) && InputAsks(g, fs, i, j, s);
    }
  }

  lemma InputSeedsRow(g: Graph, fs: seq<FilterState>, i: nat)
    requires i < |fs|
    ensures InputSeedsTo(g, fs, i + 1, 0) == InputSeedsTo(g, fs, i, |fs[i].inputs|)
  {
    assert forall a: nat, b: nat | ClosedButFed(fs, a, b) ::
        Earlier(a, b, i + 1, 0) <==> Earlier(a, b, i, |fs[i].inputs|);
  }

  lemma InputSeedsAll(g: Graph, fs: seq<FilterState>)
    ensures InputSeedsTo(g, fs, |fs|, 0) == InputSeeds(g, fs)
  {
    assert forall a: nat, b: nat | ClosedButFed(fs, a, b) :: Earlier(a, b, |fs|, 0);
  }

  // ----- the queues of decoders

  /** The demuxer with a stream whose first destination is decoder `k`; such queues are frozen
      with their demuxer. */
  function FirstDemuxer(g: Graph, k: nat): (r: Option<nat>)
    requires k < |g.dec|
    ensures r.Some? ==> r.value < |g.demux|
  {
    match g.dec[k].src
    case Some(Demuxed(i, j)) =>
      if i < |g.demux| && j < |g.demux[i]| && g.demux[i][j] != [] && g.demux[i][j][0] == ToDec(k) then Some(i) else None
    case _ => None
  }

  /** In a graph that is ready, that demuxer is the one, if any, with a stream that goes to the
      decoder first. */
  lemma FirstDemuxerIff(g: Graph, k: nat, i: nat)
    requires Ready(g) && k < |g.dec|
    ensures FirstDemuxer(g, k) == Some(i) <==>
      i < |g.demux| && exists j :: 0 <= j < |g.demux[i]| && g.demux[i][j] != [] && g.demux[i][j][0] == ToDec(k)
  {
    if i < |g.demux| {
      forall j | 0 <= j < |g.demux[i]| && g.demux[i][j] != [] && g.demux[i][j][0] == ToDec(k)
        ensures g.dec[k].src == Some(Demuxed(i, j))
      {
        DemuxDest(g, i, j);
      }
    }
  }

  /** A queue is frozen exactly if it comes first in a stream of a choked demuxer, and was not
      sent a finish since the demuxer's flag was last changed. */
  ghost predicate QueueFollows(g: Graph, demuxChoked: seq<bool>, decChoked: seq<bool>, thawed: seq<bool>, k: nat)
    requires k < |g.dec| == |decChoked| == |thawed| && |demuxChoked| == |g.demux|
  {
    var i := FirstDemuxer(g, k);
    decChoked[k] <==> i.Some? && demuxChoked[i.value] && !thawed[k]
  }

  ghost predicate QueuesFollow(g: Graph, demuxChoked: seq<bool>, decChoked: seq<bool>, thawed: seq<bool>) {
    && |decChoked| == |thawed| == |g.dec| && |demuxChoked| == |g.demux|
    && forall k | 0 <= k < |g.dec| :: QueueFollows(g, demuxChoked, decChoked, thawed, k)
  }

  lemma FinishFollows(g: Graph, demuxChoked: seq<bool>, decChoked: seq<bool>, thawed: seq<bool>, k: nat)
    requires QueuesFollow(g, demuxChoked, decChoked, thawed) && k < |g.dec|
    ensures QueuesFollow(g, demuxChoked, decChoked[k := false], thawed[k := true])
  {
    var d, t := decChoked[k := false], thawed[k := true];
    forall n | 0 <= n < |g.dec| ensures QueueFollows(g, demuxChoked, d, t, n) {
      assert QueueFollows(g, demuxChoked, decChoked, thawed, n);
    }
  }

  lemma FrozenHasDemuxer(g: Graph, demuxChoked: seq<bool>, decChoked: seq<bool>, thawed: seq<bool>)
    requires QueuesFollow(g, demuxChoked, decChoked, thawed)
    ensures forall k | 0 <= k < |g.dec| && decChoked[k] :: FirstDemuxer(g, k).Some?
  {
    forall k | 0 <= k < |g.dec| && decChoked[k] ensures FirstDemuxer(g, k).Some? {
      assert QueueFollows(g, demuxChoked, decChoked, thawed, k);
    }
  }

  ghost predicate QueuesDrain(decChoked: seq<bool>) {
    forall k | 0 <= k < |decChoked| :: !decChoked[k]
  }

  ghost predicate AllCounted(fs: seq<FilterState>) {
    forall f | 0 <= f < |fs| :: InputsCounted(fs[f])
  }

  lemma OneChanged(g: Graph, fs: seq<FilterState>, f: nat, x: FilterState)
    requires Fits(g, fs) && AllCounted(fs) && f < |fs| && InputsCounted(x)
    requires |x.inputs| == |fs[f].inputs| && x.bestInput <= |x.inputs|
    ensures Fits(g, fs[f := x]) && AllCounted(fs[f := x])
  {
  }

  /** Demuxed packets go to decoders and muxers only, and each of those has one source. */
  lemma DemuxDest(g: Graph, i: nat, j: nat)
    requires Ready(g) && i < |g.demux| && j < |g.demux[i]|
    ensures g.demux[i][j] != []
    ensures var k := g.demux[i][j][0];
      ValidSink(g, k) && (k.ToMux? || (k.ToDec? && g.dec[k.idx].src == Some(Demuxed(i, j))))
  {
    assert DestsAgree(g, Demuxed(i, j));
    assert g.demux[i][j][0] in Dests(g, Demuxed(i, j));
  }

  /** The muxer streams among `ks` whose mark was not refused are finished, and nothing else has
      changed. */
  ghost predicate Ended(before: seq<seq<MuxStream>>, after: seq<seq<MuxStream>>, ks: seq<Sink>, refused: set<Sink>) {
    && |after| == |before|
    && (forall a | 0 <= a < |before| :: |after[a]| == |before[a]|)
    && forall a: nat, b: nat | a < |before| && b < |before[a]| ::
         after[a][b] ==
         if ToMux(a, b) in ks && ToMux(a, b) !in refused then before[a][b].(sourceFinished := true) else before[a][b]
  }

  lemma EndedOn(a: seq<seq<MuxStream>>, b: seq<seq<MuxStream>>, c: seq<seq<MuxStream>>, ks: seq<Sink>, n: nat,
                refused: set<Sink>)
    requires n < |ks| && Ended(a, b, ks[..n], refused) && Ended(b, c, [ks[n]], refused)
    ensures Ended(a, c, ks[..n + 1], refused)
  {
    assert ks[..n + 1] == ks[..n] + [ks[n]];
  }

  function AllFinished(ms: seq<MuxStream>): (r: seq<MuxStream>)
    ensures |r| == |ms| && forall j | 0 <= j < |r| :: r[j] == ms[j].(sourceFinished := true)
  {
    seq(|ms|, j requires 0 <= j < |ms| => ms[j].(sourceFinished := true))
  }

  lemma {:induction false} NothingCounted(bs: seq<bool>)
    requires forall i | 0 <= i < |bs| :: !bs[i]
    ensures Count(bs) == 0
  {
    if bs != [] {
      NothingCounted(bs[..|bs| - 1]);
    }
  }

  class Scheduler {
    const g: Graph
    // the layering found by the start-up check
    ghost const layers: map<nat, nat>

    var mux: seq<seq<MuxStream>>
    var filters: seq<FilterState>
    var demuxExited: seq<bool>
    var choked: Flags
    var chokedNext: Flags
    var decChoked: seq<bool>
    // history: the queue was sent a finish since it was last told to freeze or not
    ghost var thawed: seq<bool>
    var lastDts: int
    var terminate: bool

    ghost predicate Valid()
      reads this
    {
      && Walkable(g, layers)
      && Fits(g, filters)
      && ValidMux(g, mux)
      && |demuxExited| == |g.demux|
      && Shaped(g, choked)
      && |decChoked| == |thawed| == |g.dec|
    }

    /** The queues follow the flags; after a stop everything is choked and the queues drain. */
    ghost predicate QueuesInForce()
      reads this
      requires Valid()
    {
      if terminate then Free(choked) == iset{} && QueuesDrain(decChoked)
      else QueuesFollow(g, choked.demux, decChoked, thawed)
    }

    /** The flags are the decision for the current state, unless a stop has overruled it. */
    ghost predicate InForce()
      reads this
      requires Valid()
    {
      terminate || Decided(g, mux, filters, demuxExited, lastDts, choked)
    }

    /** What holds from the start of the first task on: tasks run, and make updates of their own,
        before `sch_start` makes the first one. */
    ghost predicate Consistent()
      reads this
    {
      Valid() && AllCounted(filters) && QueuesInForce()
    }

    /** What every update leaves behind, and every operation keeps. */
    ghost predicate UpToDate()
      reads this
    {
      Consistent() && InForce()
    }

    /** The state in which the tasks are started: nothing is choked, nothing has been sent. */
    constructor (g: Graph, ghost layers: map<nat, nat>)
      requires Walkable(g, layers)
      ensures this.g == g && this.layers == layers && !terminate
      ensures Consistent()
      ensures forall t | ValidTask(g, t) :: IsFree(choked, t)
      ensures forall i, j | 0 <= i < |mux| && 0 <= j < |mux[i]| :: mux[i][j] == MuxStream(AV_NOPTS_VALUE, false)
    {
      this.g, this.layers := g, layers;
      mux := seq(|g.mux|, i requires 0 <= i < |g.mux| => seq(|g.mux[i]|, _ => MuxStream(AV_NOPTS_VALUE, false)));
      filters := seq(|g.filters|, f requires 0 <= f < |g.filters| =>
        FilterState(seq(|g.filters[f].inputs|, _ => FilterIn(false, false)), 0, 0, false, false, 0, false));
      demuxExited := seq(|g.demux|, _ => false);
      choked := Flags(seq(|g.demux|, _ => false), seq(|g.filters|, _ => false));
      chokedNext := Flags([], []);
      decChoked := seq(|g.dec|, _ => false);
      thawed := seq(|g.dec|, _ => false);
      lastDts := 0;
      terminate := false;
      new;
      forall f | 0 <= f < |filters| ensures InputsCounted(filters[f]) {
        NothingCounted(Sent(filters[f]));
        NothingCounted(Received(filters[f]));
      }
    }

    /** `unchoke_for_stream`. */
    method UnchokeForStream(start: Source, ghost open: set<nat>)
      requires Walkable(g, layers) && Fits(g, filters) && ValidSource(g, start)
      requires Shaped(g, chokedNext) && ClosedBut(g, filters, chokedNext, open)
      modifies `chokedNext
      ensures Root(g, filters, start).Some?
      ensures Grows(g, filters, old(chokedNext), chokedNext, iset{Root(g, filters, start).value}, open)
      decreases ChokedDemuxers(chokedNext), 0, 1, 0
    {
      RootExists(g, layers, filters, start);
      ghost var root := Root(g, filters, start);
      ghost var fuel := RootFuel(g, filters, start);
      var src := start;
      while true
        invariant RootWithin(g, filters, src, fuel) == root
        invariant chokedNext == old(chokedNext)
        decreases fuel
      {
        match src {
          case Demuxed(i, _) =>
            UnchokeDemux(i, open);
            return;
          case Decoded(i, _) =>
            src := g.dec[i].src.value;
          case Encoded(i) =>
            src := g.enc[i].src.value;
          case Filtered(f, _) =>
            if filters[f].bestInput == |g.filters[f].inputs| {
              GrowsFilter(g, filters, chokedNext, f, open);
              chokedNext := Release(chokedNext, FilterTask(f));
              return;
            }
            src := g.filters[f].inputs[filters[f].bestInput].value;
        }
        fuel := fuel - 1;
      }
    }

    /** The demuxer case of `unchoke_for_stream`. */
    method UnchokeDemux(i: nat, ghost open: set<nat>)
      requires Walkable(g, layers) && Fits(g, filters) && i < |g.demux|
      requires Shaped(g, chokedNext) && ClosedBut(g, filters, chokedNext, open)
      modifies `chokedNext
      ensures Grows(g, filters, old(chokedNext), chokedNext, iset{DemuxTask(i)}, open)
      decreases ChokedDemuxers(chokedNext), 0, 0, 0
    {
      if !chokedNext.demux[i] {
        return;
      }
      ReleaseFrees(chokedNext, DemuxTask(i));
      chokedNext := Release(chokedNext, DemuxTask(i));
      ghost var released := chokedNext;
      for j := 0 to |g.demux[i]|
        invariant Grows(g, filters, released, chokedNext, StreamNeeds(g, filters, i, j), open + {i})
      {
        ghost var before := chokedNext;
        ChokedShrinks(released, chokedNext);
        DemuxDest(g, i, j);
        UnchokeDownstream(g.demux[i][j][0], open + {i});
        GrowsThen(g, filters, released, before, chokedNext,
                  StreamNeeds(g, filters, i, j), RootsBelow(g, filters, g.demux[i][j][0]), open + {i});
        StreamNeedsNext(g, filters, i, j);
      }
      GrowsDemux(g, filters, old(chokedNext), chokedNext, i, open);
    }

    /** `unchoke_downstream`. */
    method UnchokeDownstream(dst: Sink, ghost open: set<nat>)
      requires Walkable(g, layers) && Fits(g, filters) && ValidSink(g, dst)
      requires Shaped(g, chokedNext) && ClosedBut(g, filters, chokedNext, open)
      modifies `chokedNext
      ensures Grows(g, filters, old(chokedNext), chokedNext, RootsBelow(g, filters, dst), open)
      decreases ChokedDemuxers(chokedNext), 1, 0, Depth(g, dst), 1
    {
      match dst {
        case ToDec(i) =>
          UnchokeBelowDec(i, open);
        case ToEnc(i) =>
          UnchokeBelowEnc(i, open);
        case ToMux(_, _) =>
          RootsBelowUnfold(g, filters, dst, []);
        case ToFilter(f, j) =>
          RootsBelowFilter(g, filters, f, j);
          RootUnfolds(g, filters, Filtered(f, 0));
          if filters[f].bestInput == |g.filters[f].inputs| {
            GrowsFilter(g, filters, chokedNext, f, open);
            chokedNext := Release(chokedNext, FilterTask(f));
          } else {
            assert SourceAgrees(g, ToFilter(f, filters[f].bestInput));
            UnchokeForStream(g.filters[f].inputs[filters[f].bestInput].value, open);
          }
      }
    }

    /** The decoder case: the first destination of every output. */
    method UnchokeBelowDec(i: nat, ghost open: set<nat>)
      requires Walkable(g, layers) && Fits(g, filters) && i < |g.dec|
      requires Shaped(g, chokedNext) && ClosedBut(g, filters, chokedNext, open)
      modifies `chokedNext
      ensures Grows(g, filters, old(chokedNext), chokedNext, RootsBelow(g, filters, ToDec(i)), open)
      decreases ChokedDemuxers(chokedNext), 1, 0, Depth(g, ToDec(i)), 0
    {
      ghost var firsts := FirstDests(g.dec[i].outputs);
      for o := 0 to |g.dec[i].outputs|
        invariant Grows(g, filters, old(chokedNext), chokedNext, SinkNeeds(g, filters, firsts, o), open)
      {
        ghost var before := chokedNext;
        ChokedShrinks(old(chokedNext), chokedNext);
        assert NextDown(g, ToDec(i), g.dec[i].outputs[o][0]);
        StepDown(g, ToDec(i), g.dec[i].outputs[o][0]);
        UnchokeDownstream(g.dec[i].outputs[o][0], open);
        GrowsThen(g, filters, old(chokedNext), before, chokedNext,
                  SinkNeeds(g, filters, firsts, o), RootsBelow(g, filters, firsts[o]), open);
        SinkNeedsNext(g, filters, firsts, o);
      }
      RootsBelowUnfold(g, filters, ToDec(i), firsts);
    }

    /** The encoder case: every destination. */
    method UnchokeBelowEnc(i: nat, ghost open: set<nat>)
      requires Walkable(g, layers) && Fits(g, filters) && i < |g.enc|
      requires Shaped(g, chokedNext) && ClosedBut(g, filters, chokedNext, open)
      modifies `chokedNext
      ensures Grows(g, filters, old(chokedNext), chokedNext, RootsBelow(g, filters, ToEnc(i)), open)
      decreases ChokedDemuxers(chokedNext), 1, 0, Depth(g, ToEnc(i)), 0
    {
      for d := 0 to |g.enc[i].dst|
        invariant Grows(g, filters, old(chokedNext), chokedNext, SinkNeeds(g, filters, g.enc[i].dst, d), open)
      {
        ghost var before := chokedNext;
        ChokedShrinks(old(chokedNext), chokedNext);
        assert NextDown(g, ToEnc(i), g.enc[i].dst[d]);
        StepDown(g, ToEnc(i), g.enc[i].dst[d]);
        UnchokeDownstream(g.enc[i].dst[d], open);
        GrowsThen(g, filters, old(chokedNext), before, chokedNext,
                  SinkNeeds(g, filters, g.enc[i].dst, d), RootsBelow(g, filters, g.enc[i].dst[d]), open);
        SinkNeedsNext(g, filters, g.enc[i].dst, d);
      }
      RootsBelowUnfold(g, filters, ToEnc(i), g.enc[i].dst);
    }

    /** `trailing_dts`. */
    method TrailingDts(countFinished: bool) returns (d: int)
      requires ValidMux(g, mux)
      ensures IsTrailing(mux, countFinished, d)
    {
      var minDts := INT64_MAX;
      for i := 0 to |mux|
        invariant forall a: nat, b: nat | Counted(mux, countFinished, a, b) && a < i ::
            AV_NOPTS_VALUE < mux[a][b].lastDts && minDts <= mux[a][b].lastDts
        invariant minDts == INT64_MAX || exists a: nat, b: nat ::
            Counted(mux, countFinished, a, b) && mux[a][b].lastDts == minDts
        invariant AV_NOPTS_VALUE < minDts <= INT64_MAX
      {
        for j := 0 to |mux[i]|
          invariant forall a: nat, b: nat | Counted(mux, countFinished, a, b) && Earlier(a, b, i, j) ::
              AV_NOPTS_VALUE < mux[a][b].lastDts && minDts <= mux[a][b].lastDts
          invariant minDts == INT64_MAX || exists a: nat, b: nat ::
              Counted(mux, countFinished, a, b) && mux[a][b].lastDts == minDts
          invariant AV_NOPTS_VALUE < minDts <= INT64_MAX
        {
          if mux[i][j].sourceFinished && !countFinished {
            continue;
          }
          assert Counted(mux, countFinished, i, j);
          if mux[i][j].lastDts == AV_NOPTS_VALUE {
            return AV_NOPTS_VALUE;
          }
          minDts := if mux[i][j].lastDts < minDts then mux[i][j].lastDts else minDts;
        }
      }
      d := if minDts == INT64_MAX then AV_NOPTS_VALUE else minDts;
    }

    /** One round of the first pass: a muxer stream that is not finished and not too far ahead. */
    method UnchokeForMuxStream(i: nat, j: nat, dts: int) returns (unchoked: bool)
      requires Valid() && i < |mux| && j < |mux[i]|
      requires Shaped(g, chokedNext) && ClosedBut(g, filters, chokedNext, {})
      modifies `chokedNext
      ensures unchoked <==> Eligible(mux, dts, i, j)
      ensures g.mux[i][j].Some? && Root(g, filters, g.mux[i][j].value).Some?
      ensures Grows(g, filters, old(chokedNext), chokedNext, MuxSeed(g, mux, filters, dts, i, j), {})
    {
      assert SourceAgrees(g, ToMux(i, j));
      RootExists(g, layers, filters, g.mux[i][j].value);
      GrowsNot(g, filters, chokedNext, {});
      var ms := mux[i][j];
      if ms.sourceFinished {
        return false;
      }
      if dts == AV_NOPTS_VALUE && ms.lastDts != AV_NOPTS_VALUE {
        return false;
      }
      if dts != AV_NOPTS_VALUE && ms.lastDts - dts >= SCHEDULE_TOLERANCE {
        return false;
      }
      UnchokeForStream(g.mux[i][j].value, {});
      return true;
    }

    /** The streams of one muxer, after those of the muxers before it. */
    method UnchokeForMuxer(i: nat, dts: int, before: bool, ghost start: Flags) returns (haveUnchoked: bool)
      requires Valid() && i < |mux|
      requires Grows(g, filters, start, chokedNext, MuxSeedsTo(g, mux, filters, dts, i, 0), {})
      requires before <==> EligibleTo(mux, dts, i, 0)
      modifies `chokedNext
      ensures Grows(g, filters, start, chokedNext, MuxSeedsTo(g, mux, filters, dts, i + 1, 0), {})
      ensures haveUnchoked <==> EligibleTo(mux, dts, i + 1, 0)
    {
      haveUnchoked := before;
      for j := 0 to |mux[i]|
        invariant Grows(g, filters, start, chokedNext, MuxSeedsTo(g, mux, filters, dts, i, j), {})
        invariant haveUnchoked <==> EligibleTo(mux, dts, i, j)
      {
        ghost var flags := chokedNext;
        var unchoked := UnchokeForMuxStream(i, j, dts);
        GrowsThen(g, filters, start, flags, chokedNext, MuxSeedsTo(g, mux, filters, dts, i, j),
                  MuxSeed(g, mux, filters, dts, i, j), {});
        MuxSeedsNext(g, mux, filters, dts, i, j);
        haveUnchoked := haveUnchoked || unchoked;
      }
      MuxSeedsRow(g, mux, filters, dts, i);
    }

    /** The first pass of `schedule_update_locked`: the sources of the eligible muxer streams. */
    method UnchokeForMuxers(dts: int) returns (haveUnchoked: bool)
      requires Valid() && Shaped(g, chokedNext) && Free(chokedNext) == iset{}
      modifies `chokedNext
      ensures Grows(g, filters, old(chokedNext), chokedNext, MuxSeeds(g, mux, filters, dts), {})
      ensures haveUnchoked <==> SomeEligible(mux, dts)
    {
      haveUnchoked := false;
      for i := 0 to |mux|
        invariant Grows(g, filters, old(chokedNext), chokedNext, MuxSeedsTo(g, mux, filters, dts, i, 0), {})
        invariant haveUnchoked <==> EligibleTo(mux, dts, i, 0)
      {
        haveUnchoked := UnchokeForMuxer(i, dts, haveUnchoked, old(chokedNext));
      }
      MuxSeedsAll(g, mux, filters, dts);
    }

    /** The inputs of one filtergraph, after those of the filtergraphs before it. */
    method UnchokeForInputsOf(i: nat, ghost start: Flags)
      requires Valid() && i < |filters|
      requires Grows(g, filters, start, chokedNext, InputSeedsTo(g, filters, i, 0), {})
      modifies `chokedNext
      ensures Grows(g, filters, start, chokedNext, InputSeedsTo(g, filters, i + 1, 0), {})
    {
      for j := 0 to |filters[i].inputs|
        invariant Grows(g, filters, start, chokedNext, InputSeedsTo(g, filters, i, j), {})
      {
        ghost var flags := chokedNext;
        InputEnds(g, i, j);
        RootExists(g, layers, filters, g.filters[i].inputs[j].value);
        InputSeedsNext(g, filters, i, j);
        var fi := filters[i].inputs[j];
        if fi.receiveFinished && !fi.sendFinished {
          UnchokeForStream(g.filters[i].inputs[j].value, {});
          GrowsThen(g, filters, start, flags, chokedNext, InputSeedsTo(g, filters, i, j),
                    iset{Root(g, filters, g.filters[i].inputs[j].value).value}, {});
        }
      }
      InputSeedsRow(g, filters, i);
    }

    /** The second pass: the sources that feed closed filtergraph inputs. */
    method UnchokeForInputs()
      requires Valid() && Shaped(g, chokedNext) && ClosedBut(g, filters, chokedNext, {})
      modifies `chokedNext
      ensures Grows(g, filters, old(chokedNext), chokedNext, InputSeeds(g, filters), {})
    {
      for i := 0 to |filters|
        invariant Grows(g, filters, old(chokedNext), chokedNext, InputSeedsTo(g, filters, i, 0), {})
      {
        UnchokeForInputsOf(i, old(chokedNext));
      }
      InputSeedsAll(g, filters);
    }

    /** The third pass: at least one task that has not exited. */
    method UnchokeOne()
      requires |demuxExited| == |g.demux| && |filters| == |g.filters| && Shaped(g, chokedNext)
      modifies `chokedNext
      ensures Shaped(g, chokedNext)
      ensures Free(chokedNext) == Free(old(chokedNext)) + Only(FirstLeft(demuxExited, filters))
    {
      for i := 0 to |demuxExited|
        invariant chokedNext == old(chokedNext)
        invariant FirstUnexited(demuxExited, 0) == FirstUnexited(demuxExited, i)
      {
        if !demuxExited[i] {
          ReleaseFrees(chokedNext, DemuxTask(i));
          chokedNext := Release(chokedNext, DemuxTask(i));
          return;
        }
      }
      ghost var exits := Exits(filters);
      for f := 0 to |filters|
        invariant chokedNext == old(chokedNext)
        invariant FirstUnexited(exits, 0) == FirstUnexited(exits, f)
      {
        if !filters[f].exited {
          ReleaseFrees(chokedNext, FilterTask(f));
          chokedNext := Release(chokedNext, FilterTask(f));
          return;
        }
      }
    }

    /** `choke_demux`: the queues that the demuxer feeds first take the flag, no other changes. */
    method ChokeDemux(i: nat, c: bool)
      requires Valid() && i < |g.demux|
      modifies `decChoked, `thawed
      ensures Valid()
      ensures forall k | 0 <= k < |g.dec| ::
        if FirstDemuxer(g, k) == Some(i) then decChoked[k] == c && !thawed[k]
        else decChoked[k] == old(decChoked)[k] && thawed[k] == old(thawed)[k]
    {
      for j := 0 to |g.demux[i]|
        invariant Valid()
        invariant forall k | 0 <= k < |g.dec| ::
          if FirstDemuxer(g, k) == Some(i) && g.dec[k].src.value.stream < j then decChoked[k] == c && !thawed[k]
          else decChoked[k] == old(decChoked)[k] && thawed[k] == old(thawed)[k]
      {
        DemuxDest(g, i, j);
        match g.demux[i][j][0] {
          case ToDec(k) =>
            decChoked := decChoked[k := c];
            thawed := thawed[k := false];
          case ToMux(_, _) =>
        }
      }
    }

    /** `tq_send_finish` on the queue of a decoder: whatever the demuxer's flag, it is frozen no
        longer. No update follows. */
    method FinishDecoder(k: nat)
      requires Consistent() && k < |g.dec|
      modifies `decChoked, `thawed
      ensures decChoked == old(decChoked)[k := false] && thawed == old(thawed)[k := true]
      ensures var i := FirstDemuxer(g, k);
        i.Some? && old(choked).demux[i.value] && old(decChoked)[k] ==> choked.demux[i.value] && !decChoked[k]
      ensures Consistent() && (old(UpToDate()) ==> UpToDate())
    {
      if !terminate {
        FinishFollows(g, choked.demux, decChoked, thawed, k);
      }
      decChoked := decChoked[k := false];
      thawed := thawed[k := true];
    }

    /** One turn of the loop over demuxers that hands out the new flags. */
    method ApplyFlag(i: nat)
      requires Valid() && Shaped(g, chokedNext) && i < |g.demux|
      requires QueuesFollow(g, choked.demux, decChoked, thawed)
      modifies `choked, `decChoked, `thawed
      ensures choked == old(choked).(demux := old(choked).demux[i := chokedNext.demux[i]])
      ensures Valid() && QueuesFollow(g, choked.demux, decChoked, thawed)
    {
      if choked.demux[i] != chokedNext.demux[i] {
        ghost var before, was := decChoked, thawed;
        ghost var flags := choked.demux;
        choked := choked.(demux := choked.demux[i := chokedNext.demux[i]]);
        ChokeDemux(i, chokedNext.demux[i]);
        forall k | 0 <= k < |g.dec| ensures QueueFollows(g, choked.demux, decChoked, thawed, k) {
          assert QueueFollows(g, flags, before, was, k);
        }
      }
    }

    /** The last pass: hand the new flags to the tasks whose flag changes. */
    method ApplyFlags()
      requires Valid() && Shaped(g, chokedNext) && QueuesFollow(g, choked.demux, decChoked, thawed)
      modifies `choked, `decChoked, `thawed
      ensures choked == chokedNext && Valid() && QueuesFollow(g, choked.demux, decChoked, thawed)
    {
      for i := 0 to |g.demux|
        invariant Valid() && choked.filters == old(choked).filters
        invariant forall a | 0 <= a < |g.demux| ::
          choked.demux[a] == if a < i then chokedNext.demux[a] else old(choked).demux[a]
        invariant QueuesFollow(g, choked.demux, decChoked, thawed)
      {
        ApplyFlag(i);
      }
      for f := 0 to |g.filters|
        invariant Valid() && choked.demux == chokedNext.demux
        invariant QueuesFollow(g, choked.demux, decChoked, thawed)
        invariant forall a | 0 <= a < |g.filters| ::
          choked.filters[a] == if a < f then chokedNext.filters[a] else old(choked).filters[a]
      {
        if choked.filters[f] != chokedNext.filters[f] {
          choked := choked.(filters := choked.filters[f := chokedNext.filters[f]]);
        }
      }
    }

    /** The three passes of `schedule_update_locked` that compute the new flags. */
    method Decide(dts: int)
      requires Valid() && IsTrailing(mux, false, dts)
      modifies `chokedNext
      ensures Decided(g, mux, filters, demuxExited, dts, chokedNext)
    {
      chokedNext := Flags(seq(|g.demux|, _ => true), seq(|g.filters|, _ => true));
      ghost var none := chokedNext;
      assert Free(none) == iset{};
      var haveUnchoked := UnchokeForMuxers(dts);
      ghost var first := chokedNext;
      UnchokeForInputs();
      GrowsThen(g, filters, none, first, chokedNext, MuxSeeds(g, mux, filters, dts), InputSeeds(g, filters), {});
      GrowsFromNothing(g, filters, none, chokedNext, Seeds(g, mux, filters, dts));
      if !haveUnchoked {
        UnchokeOne();
      }
    }

    /** `schedule_update_locked`. */
    method ScheduleUpdate()
      requires Consistent()
      modifies `choked, `chokedNext, `decChoked, `thawed, `lastDts
      ensures UpToDate()
      ensures terminate ==> choked == old(choked) && decChoked == old(decChoked) && lastDts == old(lastDts)
    {
      if terminate {
        return;
      }
      lastDts := TrailingDts(false);
      Decide(lastDts);
      ApplyFlags();
    }

    // ----- the operations that change what the decision depends on

    /** The update made when all tasks have been started. */
    method Start()
      requires Consistent()
      modifies `choked, `chokedNext, `decChoked, `thawed, `lastDts
      ensures UpToDate()
    {
      ScheduleUpdate();
    }

    /** The end of `send_to_mux` for a packet with a timestamp. */
    method MuxProgress(i: nat, j: nat, dts: int)
      requires Consistent() && i < |mux| && j < |mux[i]| && InRange(dts)
      modifies `mux, `choked, `chokedNext, `decChoked, `thawed, `lastDts
      ensures mux == old(mux)[i := old(mux)[i][j := old(mux)[i][j].(lastDts := dts)]]
      ensures UpToDate()
    {
      mux := mux[i := mux[i][j := mux[i][j].(lastDts := dts)]];
      ScheduleUpdate();
    }

    /** A muxer stream gets no more input: the finish in `send_to_mux`, `send_to_enc_sq` and
        `sch_mux_receive_finish`. */
    method MuxFinish(i: nat, j: nat)
      requires Consistent() && i < |mux| && j < |mux[i]|
      modifies `mux, `choked, `chokedNext, `decChoked, `thawed, `lastDts
      ensures mux == old(mux)[i := old(mux)[i][j := old(mux)[i][j].(sourceFinished := true)]]
      ensures UpToDate()
    {
      mux := mux[i := mux[i][j := mux[i][j].(sourceFinished := true)]];
      ScheduleUpdate();
    }

    /** The loop of `mux_done`. */
    method FinishAllStreams(i: nat)
      requires ValidMux(g, mux) && i < |mux|
      modifies `mux
      ensures ValidMux(g, mux) && mux == old(mux)[i := AllFinished(old(mux)[i])]
    {
      for j := 0 to |mux[i]|
        invariant ValidMux(g, mux) && |mux[i]| == |old(mux)[i]|
        invariant forall a | 0 <= a < |mux| && a != i :: mux[a] == old(mux)[a]
        invariant forall b | 0 <= b < |mux[i]| ::
            mux[i][b] == if b < j then old(mux)[i][b].(sourceFinished := true) else old(mux)[i][b]
      {
        mux := mux[i := mux[i][j := mux[i][j].(sourceFinished := true)]];
      }
      assert mux[i] == AllFinished(old(mux)[i]);
    }

    /** `mux_done`. */
    method MuxDone(i: nat)
      requires Consistent() && i < |mux|
      modifies `mux, `choked, `chokedNext, `decChoked, `thawed, `lastDts
      ensures mux == old(mux)[i := AllFinished(old(mux)[i])]
      ensures UpToDate()
    {
      FinishAllStreams(i);
      ScheduleUpdate();
    }

    /** The part of `send_to_filter` that records the finish of an input. */
    method NoteSendFinished(f: nat, j: nat)
      requires f < |filters| && j < |filters[f].inputs| && !filters[f].inputs[j].sendFinished
      requires Fits(g, filters) && AllCounted(filters)
      modifies `filters
      ensures Fits(g, filters) && AllCounted(filters)
      ensures filters == old(filters)[f := SendFinished(old(filters)[f], j)]
    {
      var fg := filters[f];
      fg := fg.(inputs := fg.inputs[j := fg.inputs[j].(sendFinished := true)]);
      fg := fg.(nbFinishedSend := fg.nbFinishedSend + 1);
      if fg.nbFinishedSend == |fg.inputs| {
        fg := fg.(controlSendFinished := true);
      }
      assert fg == SendFinished(filters[f], j);
      SendFinishKeepsCounts(filters[f], j);
      OneChanged(g, filters, f, fg);
      filters := filters[f := fg];
    }

    /** `send_to_filter` without a frame: the finish of a filtergraph input. */
    method SendToFilterFinish(f: nat, j: nat)
      requires Consistent() && f < |filters| && j < |filters[f].inputs|
      modifies `filters, `choked, `chokedNext, `decChoked, `thawed, `lastDts
      ensures filters == old(filters)[f := SendFinished(old(filters)[f], j)]
      ensures Consistent() && (old(UpToDate()) || filters != old(filters) ==> UpToDate())
    {
      if !filters[f].inputs[j].sendFinished {
        NoteSendFinished(f, j);
        ScheduleUpdate();
      }
    }

    /** The part of `sch_filter_receive_finish` that records the finish of an input. */
    method NoteReceiveFinished(f: nat, j: nat)
      requires f < |filters| && j < |filters[f].inputs| && !filters[f].inputs[j].receiveFinished
      requires Fits(g, filters) && AllCounted(filters)
      modifies `filters
      ensures Fits(g, filters) && AllCounted(filters)
      ensures filters == old(filters)[f := ReceiveFinished(old(filters)[f], j)]
    {
      var fg := filters[f];
      fg := fg.(inputs := fg.inputs[j := fg.inputs[j].(receiveFinished := true)]);
      fg := fg.(nbFinishedReceive := fg.nbFinishedReceive + 1);
      if fg.nbFinishedReceive == |fg.inputs| {
        fg := fg.(controlReceiveFinished := true);
      }
      assert fg == ReceiveFinished(filters[f], j);
      ReceiveFinishKeepsCounts(filters[f], j);
      OneChanged(g, filters, f, fg);
      filters := filters[f := fg];
    }

    /** `sch_filter_receive_finish`. */
    method FilterReceiveFinish(f: nat, j: nat)
      requires Consistent() && f < |filters| && j < |filters[f].inputs|
      modifies `filters, `choked, `chokedNext, `decChoked, `thawed, `lastDts
      ensures filters == old(filters)[f := ReceiveFinished(old(filters)[f], j)]
      ensures Consistent() && (old(UpToDate()) || filters != old(filters) ==> UpToDate())
    {
      if !filters[f].inputs[j].receiveFinished {
        NoteReceiveFinished(f, j);
        ScheduleUpdate();
      }
    }

    /** The start of `sch_filter_receive`: the filtergraph wants data from another input. */
    method FilterWants(f: nat, input: nat)
      requires Consistent() && f < |filters| && input <= |filters[f].inputs|
      modifies `filters, `choked, `chokedNext, `decChoked, `thawed, `lastDts
      ensures filters == old(filters)[f := old(filters)[f].(bestInput := input)]
      ensures Consistent() && (old(UpToDate()) || filters != old(filters) ==> UpToDate())
    {
      if input != filters[f].bestInput {
        SetBestInput(f, input);
        ScheduleUpdate();
      }
    }

    /** `sch_filter_choke_inputs`: the filtergraph wants none. The update is made in any case. */
    method FilterChokeInputs(f: nat)
      requires Consistent() && f < |filters|
      modifies `filters, `choked, `chokedNext, `decChoked, `thawed, `lastDts
      ensures filters == old(filters)[f := old(filters)[f].(bestInput := |old(filters)[f].inputs|)]
      ensures UpToDate()
    {
      SetBestInput(f, |filters[f].inputs|);
      ScheduleUpdate();
    }

    method SetBestInput(f: nat, input: nat)
      requires f < |filters| && input <= |filters[f].inputs| && Fits(g, filters) && AllCounted(filters)
      modifies `filters
      ensures filters == old(filters)[f := old(filters)[f].(bestInput := input)]
      ensures Fits(g, filters) && AllCounted(filters)
    {
      SameInputsSameCounts(filters[f], input, true);
      filters := filters[f := filters[f].(bestInput := input)];
    }

    /** The end of `demux_done`. */
    method DemuxExited(i: nat)
      requires Consistent() && i < |demuxExited|
      modifies `demuxExited, `choked, `chokedNext, `decChoked, `thawed, `lastDts
      ensures demuxExited == old(demuxExited)[i := true]
      ensures UpToDate()
    {
      demuxExited := demuxExited[i := true];
      ScheduleUpdate();
    }

    /** `send_to_mux` without a packet. If the pre-muxing queue refuses the mark, the stream stays
        unfinished for the scheduler and no update is made. */
    method SendFinishToMux(i: nat, j: nat, refused: bool)
      requires Consistent() && i < |mux| && j < |mux[i]|
      modifies `mux, `choked, `chokedNext, `decChoked, `thawed, `lastDts
      ensures mux ==
        if refused then old(mux) else old(mux)[i := old(mux)[i][j := old(mux)[i][j].(sourceFinished := true)]]
      ensures refused ==> choked == old(choked) && decChoked == old(decChoked) && lastDts == old(lastDts)
      ensures Consistent() && (old(UpToDate()) || !refused ==> UpToDate())
    {
      if refused {
        return;
      }
      MuxFinish(i, j);
    }

    /** The finish that `demux_stream_send_to_dst` issues to one destination. */
    method FinishDest(x: Sink, refused: set<Sink>)
      requires Consistent() && ValidSink(g, x) && (x.ToDec? || x.ToMux?)
      modifies `mux, `choked, `chokedNext, `decChoked, `thawed, `lastDts
      ensures Ended(old(mux), mux, [x], refused)
      ensures Consistent()
    {
      match x {
        case ToDec(k) => FinishDecoder(k);
        case ToMux(a, b) => SendFinishToMux(a, b, x in refused);
      }
    }

    /** `demux_done`, with the destinations that have not been finished before: each is sent its
        finish, choked or not, which a full pre-muxing queue may refuse, and then the demuxer
        counts as exited. */
    method DemuxDone(i: nat, unfinished: seq<Sink>, refused: set<Sink>)
      requires Consistent() && i < |demuxExited|
      requires forall x | x in unfinished :: ValidSink(g, x) && (x.ToDec? || x.ToMux?)
      modifies `mux, `demuxExited, `choked, `chokedNext, `decChoked, `thawed, `lastDts
      ensures demuxExited == old(demuxExited)[i := true]
      ensures Ended(old(mux), mux, unfinished, refused)
      ensures UpToDate()
    {
      for n := 0 to |unfinished|
        invariant Consistent() && demuxExited == old(demuxExited)
        invariant Ended(old(mux), mux, unfinished[..n], refused)
      {
        assert unfinished[n] in unfinished;
        ghost var before := mux;
        FinishDest(unfinished[n], refused);
        EndedOn(old(mux), before, mux, unfinished, n, refused);
      }
      assert unfinished[..|unfinished|] == unfinished;
      DemuxExited(i);
    }

    /** The end of `filter_done`. */
    method FilterExited(f: nat)
      requires Consistent() && f < |filters|
      modifies `filters, `choked, `chokedNext, `decChoked, `thawed, `lastDts
      ensures filters == old(filters)[f := old(filters)[f].(exited := true)]
      ensures UpToDate()
    {
      SameInputsSameCounts(filters[f], 0, true);
      filters := filters[f := filters[f].(exited := true)];
      ScheduleUpdate();
    }

    method ChokeAllFilters()
      requires Valid()
      modifies `choked
      ensures Valid() && choked.demux == old(choked).demux && forall f | 0 <= f < |choked.filters| :: choked.filters[f]
    {
      for f := 0 to |g.filters|
        invariant Valid() && choked.demux == old(choked).demux && forall a | 0 <= a < f :: choked.filters[a]
      {
        choked := choked.(filters := choked.filters[f := true]);
      }
    }

    method ChokeAllDemuxers()
      requires Valid()
      modifies `choked, `decChoked, `thawed
      ensures Valid() && choked.filters == old(choked).filters && forall i | 0 <= i < |choked.demux| :: choked.demux[i]
      ensures forall k | 0 <= k < |g.dec| :: decChoked[k] == (FirstDemuxer(g, k).None? && old(decChoked)[k])
    {
      for i := 0 to |g.demux|
        invariant Valid() && choked.filters == old(choked).filters && forall a | 0 <= a < i :: choked.demux[a]
        invariant forall k | 0 <= k < |g.dec| ::
          decChoked[k] == (old(decChoked)[k] && (FirstDemuxer(g, k).None? || FirstDemuxer(g, k).value >= i))
      {
        choked := choked.(demux := choked.demux[i := true]);
        ChokeDemux(i, false);
      }
    }

    /** The loop of `sch_stop` over the waiters, taken as one step. */
    method Stop()
      requires Consistent()
      modifies `terminate, `choked, `decChoked, `thawed
      ensures terminate && UpToDate()
    {
      if !terminate {
        FrozenHasDemuxer(g, choked.demux, decChoked, thawed);
      }
      terminate := true;
      ChokeAllFilters();
      ChokeAllDemuxers();
    }
  }
}

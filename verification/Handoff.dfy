/** The hand-over of a muxer's streams from buffering to direct sending, as the interleaving of
    one sending thread per stream with the thread that starts the muxer. Steps are the sections
    between lock operations and single atomic accesses. */
module Handoff {
  import opened Topology
  import opened PreMux
  import opened Timestamps

  /** Where a sender is inside `send_to_mux`. */
  datatype Pc =
    | Idle
    | Waiting(x: Item)     // saw the muxer not started, is about to take the lock
    | Holding(x: Item)     // holds `mux_ready_lock`
    | Sending(x: Item)     // saw the muxer started

  /** Who holds `mux_ready_lock`. */
  datatype Lock = Unlocked | BySender(i: nat) | ByStarter | ByOther

  datatype State = State(
    started: bool,                 // `mux_started`
    lock: Lock,
    pc: seq<Pc>,
    premux: seq<PreMuxQueue>,
    initEof: seq<bool>,
    closed: seq<bool>,             // the muxer reads no more of this stream
    queue: seq<seq<Item>>,         // what the thread queue has accepted, by stream
    // history
    sent: seq<seq<Item>>,          // handed to `send_to_mux`, and not refused with an error
    handled: seq<seq<Item>>,       // offered to the thread queue
    taken: seq<nat>,               // how many items were offered before the first refusal
    finishes: seq<nat>,            // finish marks handed to `send_to_mux`
    lost: seq<nat>)                // finish marks refused with an error, which the callers ignore

  datatype Action =
    | Begin(i: nat, x: Item)
    | Acquire(i: nat)
    | Recheck(i: nat)
    | Send(i: nat)
    | StartFlush
    | FlushHead(i: nat)
    | EndFlush
    | Unlock
    | Close(i: nat)
    | OtherLock
    | OtherUnlock

  predicate Sized(s: State) {
    && |s.pc| == |s.premux| == |s.initEof| == |s.closed|
    && |s.pc| == |s.queue| == |s.sent| == |s.handled| == |s.taken| == |s.finishes| == |s.lost|
  }

  function Fifos(s: State): (fs: seq<seq<Item>>)
    ensures |fs| == |s.premux| && forall i | 0 <= i < |fs| :: fs[i] == s.premux[i].items
  {
    seq(|s.premux|, i requires 0 <= i < |s.premux| => s.premux[i].items)
  }

  ghost predicate Enabled(s: State, a: Action)
    requires Sized(s)
  {
    match a
    case Begin(i, x) => i < |s.pc| && s.pc[i].Idle?
    case Acquire(i) => i < |s.pc| && s.pc[i].Waiting? && s.lock == Unlocked
    case Recheck(i) => i < |s.pc| && s.pc[i].Holding? && s.lock == BySender(i)
    case Send(i) => i < |s.pc| && s.pc[i].Sending?
    case StartFlush => s.lock == Unlocked && !s.started
    case FlushHead(i) => s.lock == ByStarter && !s.started && Chosen(Fifos(s), i)
    case EndFlush => s.lock == ByStarter && !s.started && AllEmpty(Fifos(s))
    case Unlock => s.lock == ByStarter && s.started
    case Close(i) => i < |s.pc|
    case OtherLock => s.lock == Unlocked
    case OtherUnlock => s.lock == ByOther
  }

  /** An item meets the thread queue: a finish mark always enters, a packet unless the stream
      has been closed or, while flushing, has been refused before. */
  function Offer(s: State, i: nat, x: Item, skip: bool): State
    requires Sized(s) && i < |s.pc|
  {
    var all := s.taken[i] == |s.handled[i]|;
    var t := s.(handled := s.handled[i := s.handled[i] + [x]]);
    if x.Finish? then
      t.(queue := t.queue[i := t.queue[i] + [x]], taken := if all then t.taken[i := t.taken[i] + 1] else t.taken)
    else if skip || s.closed[i] then t
    else
      t.(queue := t.queue[i := t.queue[i] + [x]], taken := t.taken[i := t.taken[i] + 1])
  }

  function Mark(x: Item): nat {
    if x.Finish? then 1 else 0
  }

  ghost function Apply(s: State, a: Action): State
    requires Sized(s) && Enabled(s, a)
  {
    match a
    case Begin(i, x) =>
      s.(sent := s.sent[i := s.sent[i] + [x]], pc := s.pc[i := if s.started then Sending(x) else Waiting(x)],
         finishes := s.finishes[i := s.finishes[i] + Mark(x)])
    case Acquire(i) =>
      s.(lock := BySender(i), pc := s.pc[i := Holding(s.pc[i].x)])
    case Recheck(i) =>
      var x := s.pc[i].x;
      if s.started then
        s.(lock := Unlocked, pc := s.pc[i := Sending(x)])
      else
        var q := Queued(s.premux[i], x);
        var t := s.(lock := Unlocked, pc := s.pc[i := Idle]);
        if q.Some? then t.(premux := t.premux[i := q.value])
        else
          t.(sent := t.sent[i := if |t.sent[i]| > 0 then t.sent[i][..|t.sent[i]| - 1] else []],
             lost := t.lost[i := t.lost[i] + Mark(x)])
    case Send(i) =>
      Offer(s, i, s.pc[i].x, s.initEof[i]).(pc := s.pc[i := Idle])
    case StartFlush =>
      s.(lock := ByStarter)
    case FlushHead(i) =>
      var x := s.premux[i].items[0];
      Offer(s, i, x, s.initEof[i]).(
        premux := s.premux[i := s.premux[i].(items := s.premux[i].items[1..])],
        initEof := s.initEof[i := s.initEof[i] || (x.Data? && s.closed[i])])
    case EndFlush =>
      s.(started := true)
    case Unlock =>
      s.(lock := Unlocked)
    case Close(i) =>
      s.(closed := s.closed[i := true])
    case OtherLock =>
      s.(lock := ByOther)
    case OtherUnlock =>
      s.(lock := Unlocked)
  }

  /** Nothing sent yet; the pre-muxing queues may have any capacity and limits. */
  ghost predicate Initial(s: State) {
    && Sized(s) && !s.started && s.lock == Unlocked
    && forall i | 0 <= i < |s.pc| ::
         && s.pc[i].Idle? && s.premux[i].items == [] && !s.initEof[i] && !s.closed[i]
         && s.queue[i] == s.sent[i] == s.handled[i] == [] && s.taken[i] == s.finishes[i] == s.lost[i] == 0
  }

  /** `acts` can be taken one after the other from `s`, and lead to `t`. */
  ghost predicate Reaches(s: State, acts: seq<Action>, t: State)
    requires Sized(s)
    decreases |acts|
  {
    if acts == [] then s == t
    else
      var n := |acts| - 1;
      exists u :: Sized(u) && Reaches(s, acts[..n], u) && Enabled(u, acts[n]) && t == Apply(u, acts[n])
  }

  function InFlight(p: Pc): seq<Item> {
    if p.Idle? then [] else [p.x]
  }

  ghost predicate StreamInv(s: State, i: nat)
    requires Sized(s) && i < |s.pc|
  {
    // every item is in one place, and the places are in send order
    && s.sent[i] == s.handled[i] + s.premux[i].items + InFlight(s.pc[i])
    && s.queue[i] == Taken(s.handled[i], s.taken[i])
    && s.taken[i] <= |s.handled[i]|
    && (s.taken[i] < |s.handled[i]| ==> s.closed[i])
    && (s.initEof[i] ==> s.taken[i] < |s.handled[i]|)
    && (!s.started && s.taken[i] < |s.handled[i]| ==> s.initEof[i])
    && (s.started ==> s.premux[i].items == [])
    && (s.pc[i].Sending? ==> s.started)
    && (s.pc[i].Holding? <==> s.lock == BySender(i))
  }

  ghost predicate Inv(s: State) {
    Sized(s) && forall i | 0 <= i < |s.pc| :: StreamInv(s, i)
  }

  lemma OfferKeeps(s: State, i: nat, x: Item, skip: bool)
    requires Sized(s) && i < |s.pc|
    requires s.queue[i] == Taken(s.handled[i], s.taken[i]) && s.taken[i] <= |s.handled[i]|
    requires (s.taken[i] < |s.handled[i]| || skip) ==> s.closed[i]
    ensures var t := Offer(s, i, x, skip);
      && Sized(t) && t.queue[i] == Taken(t.handled[i], t.taken[i])
      && t.taken[i] <= |t.handled[i]| && (t.taken[i] < |t.handled[i]| ==> t.closed[i])
  {
    var h, n := s.handled[i], s.taken[i];
    assert (h + [x])[..|h|] == h;
    if n == |h| {
      TakenAll(h, n);
      TakenAll(h, n + 1);
      TakenAll(h + [x], n + 1);
    }
  }

  lemma LockStepKeepsInv(s: State, a: Action)
    requires Inv(s) && Enabled(s, a)
    requires a.StartFlush? || a.EndFlush? || a.Unlock? || a.Close? || a.OtherLock? || a.OtherUnlock?
    ensures Inv(Apply(s, a))
  {
    var t := Apply(s, a);
    forall k | 0 <= k < |t.pc| ensures StreamInv(t, k) {
      assert StreamInv(s, k);
      assert a.EndFlush? ==> Fifos(s)[k] == [];
    }
  }

  lemma BeginKeepsInv(s: State, a: Action)
    requires Inv(s) && Enabled(s, a) && (a.Begin? || a.Acquire?)
    ensures Inv(Apply(s, a))
  {
    var t := Apply(s, a);
    forall k | 0 <= k < |t.pc| ensures StreamInv(t, k) {
      assert StreamInv(s, k);
    }
  }

  lemma RecheckKeepsInv(s: State, a: Action)
    requires Inv(s) && Enabled(s, a) && a.Recheck?
    ensures Inv(Apply(s, a))
  {
    var t := Apply(s, a);
    forall k | 0 <= k < |t.pc| ensures StreamInv(t, k) {
      assert StreamInv(s, k);
      if k == a.i && !s.started {
        var before := s.handled[k] + s.premux[k].items;
        assert s.sent[k] == before + [s.pc[k].x];
        assert before + [] == before;
        assert s.handled[k] + (s.premux[k].items + [s.pc[k].x]) == s.sent[k];
      }
    }
  }

  /** A stream that a step leaves alone keeps its invariant. */
  lemma SameStream(s: State, t: State, k: nat)
    requires Sized(s) && Sized(t) && k < |s.pc| == |t.pc| && StreamInv(s, k)
    requires t.started == s.started && t.lock == s.lock && t.pc[k] == s.pc[k] && t.premux[k] == s.premux[k]
    requires t.initEof[k] == s.initEof[k] && t.closed[k] == s.closed[k] && t.queue[k] == s.queue[k]
    requires t.sent[k] == s.sent[k] && t.handled[k] == s.handled[k] && t.taken[k] == s.taken[k]
    ensures StreamInv(t, k)
  {
  }

  lemma SentStream(s: State, i: nat)
    requires Sized(s) && i < |s.pc| && StreamInv(s, i) && Enabled(s, Send(i))
    ensures Sized(Apply(s, Send(i))) && StreamInv(Apply(s, Send(i)), i)
  {
    OfferKeeps(s, i, s.pc[i].x, s.initEof[i]);
    assert s.handled[i] + [] == s.handled[i];
  }

  lemma SendKeepsInv(s: State, a: Action)
    requires Inv(s) && Enabled(s, a) && a.Send?
    ensures Inv(Apply(s, a))
  {
    var t := Apply(s, a);
    SentStream(s, a.i);
    forall k: nat | k < |t.pc| ensures StreamInv(t, k) {
      if k != a.i {
        SameStream(s, t, k);
      }
    }
  }

  lemma FlushedStream(s: State, i: nat)
    requires Sized(s) && i < |s.pc| && StreamInv(s, i) && Enabled(s, FlushHead(i))
    ensures Sized(Apply(s, FlushHead(i))) && StreamInv(Apply(s, FlushHead(i)), i)
  {
    var x := s.premux[i].items[0];
    OfferKeeps(s, i, x, s.initEof[i]);
    assert s.handled[i] + s.premux[i].items == s.handled[i] + [x] + s.premux[i].items[1..];
  }

  lemma FlushKeepsInv(s: State, a: Action)
    requires Inv(s) && Enabled(s, a) && a.FlushHead?
    ensures Inv(Apply(s, a))
  {
    var t := Apply(s, a);
    FlushedStream(s, a.i);
    forall k: nat | k < |t.pc| ensures StreamInv(t, k) {
      if k != a.i {
        SameStream(s, t, k);
      }
    }
  }

  /** Every step of every thread keeps the invariant. */
  lemma StepKeepsInv(s: State, a: Action)
    requires Inv(s) && Enabled(s, a)
    ensures Inv(Apply(s, a))
  {
    match a
    case Begin(_, _) => BeginKeepsInv(s, a);
    case Acquire(_) => BeginKeepsInv(s, a);
    case Recheck(_) => RecheckKeepsInv(s, a);
    case Send(_) => SendKeepsInv(s, a);
    case FlushHead(_) => FlushKeepsInv(s, a);
    case _ => LockStepKeepsInv(s, a);
  }

  lemma {:induction false} ReachableInv(s: State, acts: seq<Action>, t: State)
    requires Initial(s) && Reaches(s, acts, t)
    ensures Inv(t) && |t.pc| == |s.pc|
    decreases |acts|
  {
    if acts == [] {
      forall i | 0 <= i < |s.pc| ensures StreamInv(s, i) {
      }
    } else {
      var n := |acts| - 1;
      var u :| Sized(u) && Reaches(s, acts[..n], u) && Enabled(u, acts[n]) && t == Apply(u, acts[n]);
      ReachableInv(s, acts[..n], u);
      StepKeepsInv(u, acts[n]);
    }
  }

  /** Nobody is held up but by the lock: a sender can always begin, and go on once it has the lock
      or needs none; whoever holds the lock can go on; and when it is free it can be taken. */
  lemma EachPartyMoves(s: State, acts: seq<Action>, t: State, i: nat, x: Item)
    requires Initial(s) && Reaches(s, acts, t) && i < |s.pc|
    ensures Sized(t) && i < |t.pc|
    ensures t.pc[i].Idle? ==> Enabled(t, Begin(i, x))
    ensures t.pc[i].Waiting? && t.lock.Unlocked? ==> Enabled(t, Acquire(i))
    ensures t.pc[i].Holding? ==> Enabled(t, Recheck(i))
    ensures t.pc[i].Sending? ==> Enabled(t, Send(i))
    ensures t.lock.Unlocked? && !t.started ==> Enabled(t, StartFlush)
    ensures t.lock.ByStarter? && t.started ==> Enabled(t, Unlock)
    ensures t.lock.ByStarter? && !t.started ==> Enabled(t, EndFlush) || exists k: nat :: Enabled(t, FlushHead(k))
  {
    ReachableInv(s, acts, t);
    assert StreamInv(t, i);
    if t.lock.ByStarter? && !t.started && !AllEmpty(Fifos(t)) {
      var k := SomeChosen(Fifos(t));
      assert Enabled(t, FlushHead(k));
    }
  }

  /** Once started, a sender needs no lock; and until then, whoever starts the muxer keeps it, and
      leaves nothing buffered. */
  lemma StartHoldsLock(s: State, acts: seq<Action>, t: State, a: Action)
    requires Initial(s) && Reaches(s, acts, t) && Sized(t) && Enabled(t, a)
    ensures t.started && a.Begin? ==> Sized(Apply(t, a)) && Enabled(Apply(t, a), Send(a.i))
    ensures t.lock.ByStarter? && Apply(t, a).lock != ByStarter ==>
      t.started && forall i | 0 <= i < |t.premux| :: t.premux[i].items == []
  {
    ReachableInv(s, acts, t);
    forall i | 0 <= i < |t.premux| ensures t.started ==> t.premux[i].items == [] {
      assert StreamInv(t, i);
    }
  }

  /** The flush remembers just the streams of which a packet was refused, and as such a stream is
      closed for good, it would be refused again. */
  lemma EofIsRemembered(s: State, acts: seq<Action>, t: State, i: nat, x: Item)
    requires Initial(s) && Reaches(s, acts, t) && i < |s.pc|
    ensures Sized(t) && i < |t.pc|
    ensures !t.started ==> (t.initEof[i] <==> t.taken[i] < |t.handled[i]|)
    ensures t.initEof[i] ==> t.closed[i]
    ensures Offer(t, i, x, t.initEof[i]) == Offer(t, i, x, false)
  {
    ReachableInv(s, acts, t);
    assert StreamInv(t, i);
  }

  /** In every interleaving: what the muxer's queue has of a stream is, in send order, all that
      was offered to it, but for packets offered after the muxer closed the stream; what was
      not offered yet is the end of what was sent; and nothing stays buffered once the muxer
      counts as started. */
  lemma HandoffDelivers(s: State, acts: seq<Action>, t: State, i: nat)
    requires Initial(s) && Reaches(s, acts, t) && i < |s.pc|
    ensures Sized(t) && i < |t.pc|
    ensures t.handled[i] <= t.sent[i] && t.queue[i] == Taken(t.handled[i], t.taken[i])
    ensures !t.closed[i] ==> t.queue[i] == t.handled[i]
    ensures t.started ==> t.premux[i].items == []
    ensures t.started && t.pc[i].Idle? ==> t.handled[i] == t.sent[i]
    ensures t.started && t.pc[i].Idle? && !t.closed[i] ==> t.queue[i] == t.sent[i]
  {
    ReachableInv(s, acts, t);
    assert StreamInv(t, i);
    if !t.closed[i] {
      TakenAll(t.handled[i], t.taken[i]);
    }
    if t.started && t.pc[i].Idle? {
      assert t.sent[i] == t.handled[i] + [] + [];
    }
  }

  // ----- the finish marks

  function Marks(xs: seq<Item>): nat {
    if xs == [] then 0 else Marks(xs[..|xs| - 1]) + Mark(xs[|xs| - 1])
  }

  lemma {:induction false} MarksAdd(xs: seq<Item>, ys: seq<Item>)
    ensures Marks(xs + ys) == Marks(xs) + Marks(ys)
  {
    if ys == [] {
      assert xs + ys == xs;
    } else {
      assert (xs + ys)[..|xs + ys| - 1] == xs + ys[..|ys| - 1];
      MarksAdd(xs, ys[..|ys| - 1]);
    }
  }

  lemma {:induction false} MarksTaken(xs: seq<Item>, n: nat)
    ensures Marks(Taken(xs, n)) == Marks(xs)
  {
    if xs != [] {
      var k := |xs| - 1;
      MarksTaken(xs[..k], n);
      MarksAdd(Taken(xs[..k], n), [xs[k]]);
      assert [xs[k]][..0] == [];
    }
  }

  lemma {:induction false} NoMarks(xs: seq<Item>)
    ensures Marks(xs) == 0 <==> Finish !in xs
  {
    if xs != [] {
      NoMarks(xs[..|xs| - 1]);
      assert xs == xs[..|xs| - 1] + [xs[|xs| - 1]];
    }
  }

  /** The marks that are not lost are those among what was sent. */
  ghost predicate MarksKept(s: State, i: nat)
    requires Sized(s) && i < |s.pc|
  {
    Marks(s.sent[i]) + s.lost[i] == s.finishes[i]
  }

  lemma MarksOn(xs: seq<Item>, x: Item)
    ensures Marks(xs + [x]) == Marks(xs) + Mark(x)
  {
    assert (xs + [x])[..|xs|] == xs;
  }

  lemma BeginMarks(s: State, i: nat, x: Item)
    requires Sized(s) && i < |s.pc| && MarksKept(s, i)
    ensures Marks(s.sent[i] + [x]) + s.lost[i] == s.finishes[i] + Mark(x)
  {
    MarksOn(s.sent[i], x);
  }

  lemma RefusedMarks(s: State, i: nat)
    requires Inv(s) && i < |s.pc| && MarksKept(s, i) && s.pc[i].Holding?
    ensures s.sent[i] != []
    ensures Marks(s.sent[i][..|s.sent[i]| - 1]) + s.lost[i] + Mark(s.pc[i].x) == s.finishes[i]
  {
    assert StreamInv(s, i);
    MarksOn(s.handled[i] + s.premux[i].items, s.pc[i].x);
    assert s.sent[i][..|s.sent[i]| - 1] == s.handled[i] + s.premux[i].items;
  }

  /** Only the start of a call, and a refusal, change what counts as sent. */
  lemma SameMarks(s: State, a: Action)
    requires Sized(s) && Enabled(s, a) && !a.Begin? && !a.Recheck?
    ensures var t := Apply(s, a); t.sent == s.sent && t.finishes == s.finishes && t.lost == s.lost
  {
    if a.Send? || a.FlushHead? {
      var x := if a.Send? then s.pc[a.i].x else s.premux[a.i].items[0];
      OfferSends(s, a.i, x, s.initEof[a.i]);
    }
  }

  lemma OfferSends(s: State, i: nat, x: Item, skip: bool)
    requires Sized(s) && i < |s.pc|
    ensures var t := Offer(s, i, x, skip); t.sent == s.sent && t.finishes == s.finishes && t.lost == s.lost
  {
  }

  lemma StepKeepsMarks(s: State, a: Action, i: nat)
    requires Inv(s) && Enabled(s, a) && i < |s.pc| && MarksKept(s, i) && Sized(Apply(s, a)) &&
        |Apply(s, a).pc| == |s.pc|
    ensures MarksKept(Apply(s, a), i)
  {
    if a.Begin? {
      BeginMarks(s, i, a.x);
    } else if a.Recheck? {
      if a.i == i {
        RefusedMarks(s, i);
      }
    } else {
      SameMarks(s, a);
    }
  }

  lemma {:induction false} RunKeepsMarks(s: State, acts: seq<Action>, t: State, i: nat)
    requires Initial(s) && Reaches(s, acts, t) && i < |s.pc|
    ensures Sized(t) && i < |t.pc| && MarksKept(t, i)
    decreases |acts|
  {
    ReachableInv(s, acts, t);
    if acts != [] {
      var n := |acts| - 1;
      var u :| Sized(u) && Reaches(s, acts[..n], u) && Enabled(u, acts[n]) && t == Apply(u, acts[n]);
      ReachableInv(s, acts[..n], u);
      RunKeepsMarks(s, acts[..n], u, i);
      StepKeepsMarks(u, acts[n], i);
    }
  }

  /** In every interleaving: every finish mark handed to `send_to_mux` is in the muxer's queue, or
      buffered, or on its way, or was refused. */
  lemma FinishesAccounted(s: State, acts: seq<Action>, t: State, i: nat)
    requires Initial(s) && Reaches(s, acts, t) && i < |s.pc|
    ensures Sized(t) && i < |t.pc|
    ensures Marks(t.queue[i]) + Marks(t.premux[i].items) + Marks(InFlight(t.pc[i])) + t.lost[i] == t.finishes[i]
  {
    ReachableInv(s, acts, t);
    RunKeepsMarks(s, acts, t, i);
    assert StreamInv(t, i);
    MarksTaken(t.handled[i], t.taken[i]);
    MarksAdd(t.handled[i] + t.premux[i].items, InFlight(t.pc[i]));
    MarksAdd(t.handled[i], t.premux[i].items);
  }

  /** The step at which the pre-muxing queue, full and at its limits, refuses the mark. */
  ghost predicate RefusesFinish(u: State, a: Action, i: nat)
    requires Sized(u)
  {
    && a == Recheck(i) && i < |u.pc| && !u.started
    && u.pc[i].Holding? && u.pc[i].x.Finish? && Exhausted(u.premux[i], Finish)
  }

  /** Some step of the run is such a refusal. */
  ghost predicate MetExhausted(s: State, acts: seq<Action>, i: nat)
    requires Sized(s)
    decreases |acts|
  {
    acts != [] &&
    var n := |acts| - 1;
    || MetExhausted(s, acts[..n], i)
    || exists u :: Sized(u) && Reaches(s, acts[..n], u) && Enabled(u, acts[n]) && RefusesFinish(u, acts[n], i)
  }

  lemma StepLoses(u: State, a: Action, i: nat)
    requires Sized(u) && Enabled(u, a) && i < |u.pc|
    ensures Apply(u, a).lost[i] == u.lost[i] + if RefusesFinish(u, a, i) then 1 else 0
  {
  }

  lemma {:induction false} SameState(s: State, acts: seq<Action>, t: State, u: State)
    requires Sized(s) && Reaches(s, acts, t) && Reaches(s, acts, u)
    ensures t == u
    decreases |acts|
  {
    if acts != [] {
      var n := |acts| - 1;
      var v :| Sized(v) && Reaches(s, acts[..n], v) && Enabled(v, acts[n]) && t == Apply(v, acts[n]);
      var w :| Sized(w) && Reaches(s, acts[..n], w) && Enabled(w, acts[n]) && u == Apply(w, acts[n]);
      SameState(s, acts[..n], v, w);
    }
  }

  lemma {:induction false} LostIff(s: State, acts: seq<Action>, t: State, i: nat)
    requires Initial(s) && Reaches(s, acts, t) && i < |s.pc|
    ensures Sized(t) && i < |t.pc| && (t.lost[i] > 0 <==> MetExhausted(s, acts, i))
    decreases |acts|
  {
    ReachableInv(s, acts, t);
    if acts != [] {
      var n := |acts| - 1;
      var front := acts[..n];
      var v :| Sized(v) && Reaches(s, front, v) && Enabled(v, acts[n]) && t == Apply(v, acts[n]);
      ReachableInv(s, front, v);
      LostIff(s, front, v, i);
      StepLoses(v, acts[n], i);
      if u :| Sized(u) && Reaches(s, front, u) && Enabled(u, acts[n]) && RefusesFinish(u, acts[n], i) {
        SameState(s, front, u, v);
      }
    }
  }

  /** In every interleaving in which a stream is finished once: once the muxer is started and the
      sender is back at its own work, the muxer's queue lacks the finish exactly if the sender met
      an exhausted pre-muxing queue with it. */
  lemma FinishLostIff(s: State, acts: seq<Action>, t: State, i: nat)
    requires Initial(s) && Reaches(s, acts, t) && i < |s.pc|
    requires Sized(t) && i < |t.pc| && t.started && t.pc[i].Idle? && t.finishes[i] == 1
    ensures Finish !in t.queue[i] <==> MetExhausted(s, acts, i)
  {
    FinishesAccounted(s, acts, t, i);
    HandoffDelivers(s, acts, t, i);
    LostIff(s, acts, t, i);
    NoMarks(t.queue[i]);
  }

  // ----- a run that loses one

  const P: Item := Data(Packet(0, 0, TimeBase(1, 1), 1))

  function Copies(n: nat): (r: seq<Item>)
    ensures |r| == n && forall k | 0 <= k < n :: r[k] == P
  {
    seq(n, _ => P)
  }

  lemma MoreCopies(n: nat)
    ensures Copies(n) + [P] == Copies(n + 1) && Copies(n + 1)[1..] == Copies(n)
  {
  }

  /** One stream with room for eight packets, the least the queue has, and `n` of them in it. */
  function Filled(n: nat): State {
    One(Unlocked, Idle, PreMuxQueue(Copies(n), 8, 8, n, 0), Copies(n), 0, 0)
  }

  /** The start under way, `n` packets flushed and `m` to go; the finish has been lost. */
  function Drained(n: nat, m: nat): State {
    State(false, ByStarter, [Idle], [PreMuxQueue(Copies(m), 8, 8, 8, 0)], [false], [false],
          [Copies(n)], [Copies(8)], [Copies(n)], [n], [1], [1])
  }

  ghost predicate CanReach(s: State, t: State) {
    Sized(s) && exists acts :: Reaches(s, acts, t)
  }

  lemma ReachOn(s: State, t: State, a: Action)
    requires Sized(t) && CanReach(s, t) && Enabled(t, a)
    ensures CanReach(s, Apply(t, a))
  {
    var acts :| Reaches(s, acts, t);
    assert (acts + [a])[..|acts|] == acts;
    assert Reaches(s, acts + [a], Apply(t, a));
  }

  /** One stream before the start of its muxer. */
  function One(lock: Lock, pc: Pc, q: PreMuxQueue, sent: seq<Item>, finishes: nat, lost: nat): State {
    State(false, lock, [pc], [q], [false], [false], [[]], [sent], [[]], [0], [finishes], [lost])
  }

  lemma OneBegins(q: PreMuxQueue, sent: seq<Item>, f: nat, l: nat, x: Item)
    ensures Apply(One(Unlocked, Idle, q, sent, f, l), Begin(0, x)) ==
      One(Unlocked, Waiting(x), q, sent + [x], f + Mark(x), l)
  {
  }

  lemma OneAcquires(q: PreMuxQueue, sent: seq<Item>, f: nat, l: nat, x: Item)
    ensures Apply(One(Unlocked, Waiting(x), q, sent, f, l), Acquire(0)) == One(BySender(0), Holding(x), q, sent, f, l)
  {
  }

  lemma OneRechecks(q: PreMuxQueue, sent: seq<Item>, f: nat, l: nat, x: Item)
    ensures Apply(One(BySender(0), Holding(x), q, sent + [x], f, l), Recheck(0)) ==
      if Queued(q, x).Some? then One(Unlocked, Idle, Queued(q, x).value, sent + [x], f, l)
      else One(Unlocked, Idle, q, sent, f, l + Mark(x))
  {
    assert (sent + [x])[..|sent + [x]| - 1] == sent;
  }

  lemma OneLocks(s: State, q: PreMuxQueue, sent: seq<Item>, f: nat, l: nat, x: Item)
    requires CanReach(s, One(Unlocked, Idle, q, sent, f, l))
    ensures CanReach(s, One(BySender(0), Holding(x), q, sent + [x], f + Mark(x), l))
  {
    ReachOn(s, One(Unlocked, Idle, q, sent, f, l), Begin(0, x));
    OneBegins(q, sent, f, l, x);
    ReachOn(s, One(Unlocked, Waiting(x), q, sent + [x], f + Mark(x), l), Acquire(0));
    OneAcquires(q, sent + [x], f + Mark(x), l, x);
  }

  /** A packet or a mark handed over before the muxer starts. */
  lemma SendOne(s: State, q: PreMuxQueue, sent: seq<Item>, f: nat, l: nat, x: Item)
    requires CanReach(s, One(Unlocked, Idle, q, sent, f, l))
    ensures CanReach(s,
      if Queued(q, x).Some? then One(Unlocked, Idle, Queued(q, x).value, sent + [x], f + Mark(x), l)
      else One(Unlocked, Idle, q, sent, f + Mark(x), l + Mark(x)))
  {
    OneLocks(s, q, sent, f, l, x);
    ReachOn(s, One(BySender(0), Holding(x), q, sent + [x], f + Mark(x), l), Recheck(0));
    OneRechecks(q, sent, f + Mark(x), l, x);
  }

  lemma {:induction false} Fill(n: nat)
    requires n <= 8
    ensures CanReach(Filled(0), Filled(n))
  {
    if n == 0 {
      assert Reaches(Filled(0), [], Filled(0));
    } else {
      Fill(n - 1);
      var q := Filled(n - 1).premux[0];
      MoreCopies(n - 1);
      SendOne(Filled(0), q, Copies(n - 1), 0, 0, P);
      assert Queued(q, P).value == Filled(n).premux[0];
    }
  }

  lemma FlushOne(n: nat, m: nat)
    ensures Enabled(Drained(n, m + 1), FlushHead(0))
    ensures Apply(Drained(n, m + 1), FlushHead(0)) == Drained(n + 1, m)
  {
    MoreCopies(n);
    MoreCopies(m);
    assert Fifos(Drained(n, m + 1)) == [Copies(m + 1)];
  }

  lemma {:induction false} Drain(s: State, n: nat, m: nat)
    requires CanReach(s, Drained(n, m))
    ensures CanReach(s, Drained(n + m, 0))
    decreases m
  {
    if m > 0 {
      DrainOne(s, n, m - 1);
      Drain(s, n + 1, m - 1);
    }
  }

  lemma DrainOne(s: State, n: nat, m: nat)
    requires CanReach(s, Drained(n, m + 1))
    ensures CanReach(s, Drained(n + 1, m))
  {
    FlushOne(n, m);
    ReachOn(s, Drained(n, m + 1), FlushHead(0));
  }

  lemma EndStart(s: State, n: nat)
    requires CanReach(s, Drained(n, 0))
    ensures CanReach(s, Drained(n, 0).(started := true, lock := Unlocked))
  {
    var t := Drained(n, 0);
    assert Fifos(t) == [[]];
    ReachOn(s, t, EndFlush);
    ReachOn(s, t.(started := true), Unlock);
  }

  lemma FullIsExhausted(q: PreMuxQueue)
    requires q == PreMuxQueue(Copies(8), 8, 8, 8, 0)
    ensures Queued(q, Finish) == None
  {
  }

  lemma FlushBegins(q: PreMuxQueue)
    requires q == PreMuxQueue(Copies(8), 8, 8, 8, 0)
    ensures Enabled(One(Unlocked, Idle, q, Copies(8), 1, 1), StartFlush)
    ensures Apply(One(Unlocked, Idle, q, Copies(8), 1, 1), StartFlush) == Drained(0, 8)
  {
    assert Copies(0) == [];
  }

  lemma LoseFinish()
    ensures CanReach(Filled(0), Drained(0, 8))
  {
    Fill(8);
    var q := PreMuxQueue(Copies(8), 8, 8, 8, 0);
    FullIsExhausted(q);
    SendOne(Filled(0), q, Copies(8), 0, 0, Finish);
    FlushBegins(q);
    ReachOn(Filled(0), One(Unlocked, Idle, q, Copies(8), 1, 1), StartFlush);
  }

  /** A stream whose queue is at its limits loses its finish, and the muxer, started afterwards,
      waits for it in vain. */
  lemma FinishCanBeLost() returns (s: State, acts: seq<Action>, t: State)
    ensures Initial(s) && Reaches(s, acts, t) && Sized(t) && |t.pc| == 1
    ensures t.started && t.lock == Unlocked && t.pc[0].Idle? && t.finishes[0] == 1 && !t.closed[0]
    ensures Finish !in t.queue[0]
  {
    s := Filled(0);
    LoseFinish();
    Drain(s, 0, 8);
    EndStart(s, 8);
    t := Drained(8, 0).(started := true, lock := Unlocked);
    acts :| Reaches(s, acts, t);
    assert Copies(0) == [];
  }

  /** Once something has been queued directly, nothing older of its stream is still buffered,
      so a packet never overtakes one that was sent before it. */
  lemma NoOvertaking(s: State, acts: seq<Action>, t: State, i: nat, a: Action)
    requires Initial(s) && Reaches(s, acts, t) && i < |s.pc|
    requires Sized(t) && a == Send(i) && Enabled(t, a)
    ensures t.handled[i] + [t.pc[i].x] == t.sent[i]
    ensures Apply(t, a).handled[i] == t.sent[i]
  {
    ReachableInv(s, acts, t);
    assert StreamInv(t, i);
    assert t.handled[i] + [] == t.handled[i];
  }
}

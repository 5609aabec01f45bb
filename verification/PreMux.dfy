/** The queues that hold a muxer's packets until it can be started, and the merge that empties
    them when it is. */
module PreMux {
  import opened Topology
  import opened Timestamps

  datatype Packet = Packet(id: int, dts: int, tb: TimeBase, size: nat)

  /** What a stream hands to its muxer: packets, and at the end a null packet. */
  datatype Item = Data(pkt: Packet) | Finish

  function TimeOf(p: Packet): real {
    Seconds(p.dts, p.tb)
  }

  // ----- queueing before the start

  datatype PreMuxQueue = PreMuxQueue(
    items: seq<Item>, capacity: nat, maxPackets: nat, dataSize: nat, dataThreshold: nat)

  /** `mux_queue_packet`; no result stands for AVERROR_BUFFER_TOO_SMALL. */
  method MuxQueuePacket(q: PreMuxQueue, x: Item) returns (r: Option<PreMuxQueue>)
    ensures r == Queued(q, x)
  {
    var q' := q;
    if |q.items| >= q.capacity {
      var packets := |q.items|;
      var pktSize := if x.Data? then x.pkt.size else 0;
      var threshReached := q.dataSize + pktSize > q.dataThreshold;
      var newSize := if threshReached && q.maxPackets < 2 * packets then q.maxPackets else 2 * packets;
      if newSize <= packets {
        return None;
      }
      q' := q'.(capacity := newSize);
    }
    if x.Data? {
      q' := q'.(dataSize := q'.dataSize + x.pkt.size);
    }
    return Some(q'.(items := q'.items + [x]));
  }

  /** The queue is full, and its limit in packets is in force and reached. */
  predicate Exhausted(q: PreMuxQueue, x: Item) {
    && |q.items| >= q.capacity
    && (q.items == [] || (q.maxPackets <= |q.items| && q.dataSize + ItemSize(x) > q.dataThreshold))
  }

  function ItemSize(x: Item): nat {
    if x.Data? then x.pkt.size else 0
  }

  function Queued(q: PreMuxQueue, x: Item): (r: Option<PreMuxQueue>)
    ensures r.None? <==> Exhausted(q, x)
    ensures r.Some? ==> r.value.items == q.items + [x]
  {
    if Exhausted(q, x) then None
    else Some(PreMuxQueue(
      q.items + [x],
      if |q.items| < q.capacity then q.capacity
      else if q.dataSize + ItemSize(x) > q.dataThreshold && q.maxPackets < 2 * |q.items| then q.maxPackets
      else 2 * |q.items|,
      q.maxPackets, q.dataSize + ItemSize(x), q.dataThreshold))
  }

  /** What is queued fits, the sizes are added up, and while they exceed the threshold the queue
      does not grow beyond its limit in packets. */
  lemma QueuedFits(q: PreMuxQueue, x: Item)
    requires |q.items| <= q.capacity && Queued(q, x).Some?
    ensures var r := Queued(q, x).value;
      && |r.items| <= r.capacity && q.capacity <= r.capacity
      && r.dataSize == q.dataSize + (match x case Data(p) => p.size case Finish => 0)
      && r.maxPackets == q.maxPackets && r.dataThreshold == q.dataThreshold
      && (r.dataSize > q.dataThreshold ==> r.capacity <= q.capacity || r.capacity <= q.maxPackets)
      && (q.capacity < r.capacity ==> |q.items| == q.capacity && r.capacity <= 2 * q.capacity)
  {
  }

  function SizeOf(xs: seq<Item>): nat {
    if xs == [] then 0 else ItemSize(xs[0]) + SizeOf(xs[1..])
  }

  function QueuedAll(q: PreMuxQueue, xs: seq<Item>): Option<PreMuxQueue>
    decreases |xs|
  {
    if xs == [] then Some(q)
    else
      var r := Queued(q, xs[0]);
      if r.None? then None else QueuedAll(r.value, xs[1..])
  }

  /** Up to the threshold everything is queued, in order, however many packets it takes. */
  lemma {:induction false} BelowThresholdAll(q: PreMuxQueue, xs: seq<Item>)
    requires |q.items| <= q.capacity && q.capacity > 0 && q.dataSize + SizeOf(xs) <= q.dataThreshold
    ensures QueuedAll(q, xs).Some? && QueuedAll(q, xs).value.items == q.items + xs
    decreases |xs|
  {
    if xs == [] {
      assert q.items + xs == q.items;
    } else {
      QueuedFits(q, xs[0]);
      BelowThresholdAll(Queued(q, xs[0]).value, xs[1..]);
      assert q.items + xs == q.items + [xs[0]] + xs[1..];
    }
  }

  /** And above it, nothing more once the queue is full at its limit. */
  lemma AboveThresholdNone(q: PreMuxQueue, x: Item)
    requires |q.items| == q.capacity && q.maxPackets <= q.capacity && q.dataSize + ItemSize(x) > q.dataThreshold
    ensures Queued(q, x) == None
  {
  }

  /** Even the mark that a stream has finished can be refused. The callers that finish a stream
      do not look at the result, so such a mark is lost. */
  lemma FinishCanBeRefused()
    ensures var p := Data(Packet(0, 0, TimeBase(1, 1), 1));
      Queued(PreMuxQueue([p, p, p, p, p, p, p, p], 8, 8, 8, 0), Finish) == None
  {
  }

  // ----- choosing the stream to flush next

  /** A stream that has nothing to be compared by is flushed at once. */
  predicate Urgent(x: Item) {
    x.Finish? || x.pkt.dts == AV_NOPTS_VALUE
  }

  /** The stream flushed next: the first with an urgent head or, if there is none, the first of
      those whose head is earliest. */
  ghost predicate Chosen(fifos: seq<seq<Item>>, i: nat) {
    && i < |fifos| && fifos[i] != []
    && if Urgent(fifos[i][0]) then
         forall k | 0 <= k < i && fifos[k] != [] :: !Urgent(fifos[k][0])
       else
         forall k | 0 <= k < |fifos| && fifos[k] != [] ::
           && !Urgent(fifos[k][0])
           && TimeOf(fifos[i][0].pkt) <= TimeOf(fifos[k][0].pkt)
           && (k < i ==> TimeOf(fifos[i][0].pkt) < TimeOf(fifos[k][0].pkt))
  }

  lemma ChosenIsUnique(fifos: seq<seq<Item>>, i: nat, k: nat)
    requires Chosen(fifos, i) && Chosen(fifos, k)
    ensures i == k
  {
  }

  predicate AllEmpty(fifos: seq<seq<Item>>) {
    forall i | 0 <= i < |fifos| :: fifos[i] == []
  }

  /** Unless all are empty there is one to flush. */
  lemma {:induction false} SomeChosen(fifos: seq<seq<Item>>) returns (i: nat)
    requires !AllEmpty(fifos)
    ensures Chosen(fifos, i)
    decreases |fifos|
  {
    var n := |fifos| - 1;
    var front := fifos[..n];
    assert forall k | 0 <= k < n :: front[k] == fifos[k];
    if AllEmpty(front) {
      i := n;
    } else {
      i := SomeChosen(front);
      if fifos[n] != [] && !Urgent(fifos[i][0]) &&
         (Urgent(fifos[n][0]) || TimeOf(fifos[n][0].pkt) < TimeOf(fifos[i][0].pkt)) {
        i := n;
      }
    }
  }

  method MinStream(fifos: seq<seq<Item>>) returns (r: Option<nat>)
    ensures r.None? <==> AllEmpty(fifos)
    ensures r.Some? ==> Chosen(fifos, r.value)
  {
    r := None;
    var minTs, minTb := AV_NOPTS_VALUE, TimeBase(1, 1);
    for i := 0 to |fifos|
      invariant r.None? <==> minTs == AV_NOPTS_VALUE
      invariant r.None? ==> forall k | 0 <= k < i :: fifos[k] == []
      invariant r.Some? ==> r.value < i && fifos[r.value] != [] && fifos[r.value][0].Data?
      invariant r.Some? ==> minTs == fifos[r.value][0].pkt.dts && minTb == fifos[r.value][0].pkt.tb
      invariant r.Some? ==> forall k | 0 <= k < i && fifos[k] != [] ::
        && !Urgent(fifos[k][0])
        && Seconds(minTs, minTb) <= TimeOf(fifos[k][0].pkt)
        && (k < r.value ==> Seconds(minTs, minTb) < TimeOf(fifos[k][0].pkt))
    {
      if fifos[i] == [] {
        continue;
      }
      var x := fifos[i][0];
      if x.Finish? || x.pkt.dts == AV_NOPTS_VALUE {
        return Some(i);
      }
      if minTs == AV_NOPTS_VALUE || Seconds(minTs, minTb) > TimeOf(x.pkt) {
        r := Some(i);
        minTs, minTb := x.pkt.dts, x.pkt.tb;
      }
    }
  }

  // ----- the merge

  /** The items of stream `i` in a list of stream-item pairs. */
  function Only(order: seq<(nat, Item)>, i: nat): seq<Item> {
    if order == [] then []
    else
      var last := order[|order| - 1];
      Only(order[..|order| - 1], i) + if last.0 == i then [last.1] else []
  }

  ghost predicate InOrder(xs: seq<Item>) {
    forall a, b | 0 <= a < b < |xs| && xs[a].Data? && xs[b].Data? :: TimeOf(xs[a].pkt) <= TimeOf(xs[b].pkt)
  }

  predicate AllKnown(xs: seq<Item>) {
    forall a | 0 <= a < |xs| && xs[a].Data? :: xs[a].pkt.dts != AV_NOPTS_VALUE
  }

  ghost predicate Merged(order: seq<(nat, Item)>) {
    forall a, b | 0 <= a < b < |order| && order[a].1.Data? && order[b].1.Data? ::
      TimeOf(order[a].1.pkt) <= TimeOf(order[b].1.pkt)
  }

  /** Every packet flushed so far is no later than any that is left. */
  ghost predicate Ahead(order: seq<(nat, Item)>, fifos: seq<seq<Item>>) {
    forall a, i, b | 0 <= a < |order| && 0 <= i < |fifos| && 0 <= b < |fifos[i]| && order[a].1.Data? &&
      fifos[i][b].Data? ::
      TimeOf(order[a].1.pkt) <= TimeOf(fifos[i][b].pkt)
  }

  ghost predicate Sortable(fifos: seq<seq<Item>>) {
    forall i | 0 <= i < |fifos| :: InOrder(fifos[i]) && AllKnown(fifos[i])
  }

  lemma MergeStep(order: seq<(nat, Item)>, fifos: seq<seq<Item>>, i: nat)
    requires Merged(order) && Ahead(order, fifos) && Sortable(fifos) && Chosen(fifos, i)
    ensures var order' := order + [(i, fifos[i][0])];
      var fifos' := fifos[i := fifos[i][1..]];
      Merged(order') && Ahead(order', fifos') && Sortable(fifos')
  {
    var x := fifos[i][0];
    var fifos': seq<seq<Item>> := fifos[i := fifos[i][1..]];
    forall k, b | 0 <= k < |fifos| && 0 <= b < |fifos'[k]| && x.Data? && fifos'[k][b].Data?
      ensures TimeOf(x.pkt) <= TimeOf(fifos'[k][b].pkt)
    {
      assert InOrder(fifos[k]) && fifos[k] != [];
      var c := if k == i then b + 1 else b;
      assert fifos'[k][b] == fifos[k][c];
      assert fifos[k][0].Data?;
    }
    forall k | 0 <= k < |fifos'| ensures InOrder(fifos'[k]) && AllKnown(fifos'[k]) {
      assert InOrder(fifos[k]) && AllKnown(fifos[k]);
    }
  }

  function Items(fifos: seq<seq<Item>>): nat {
    if fifos == [] then 0 else |fifos[0]| + Items(fifos[1..])
  }

  lemma {:induction false} OneItemLess(fifos: seq<seq<Item>>, i: nat)
    requires i < |fifos| && fifos[i] != []
    ensures Items(fifos[i := fifos[i][1..]]) < Items(fifos)
  {
    var rest := fifos[i := fifos[i][1..]];
    if i > 0 {
      OneItemLess(fifos[1..], i - 1);
      assert rest[1..] == fifos[1..][i - 1 := fifos[1..][i - 1][1..]];
    } else {
      assert rest[1..] == fifos[1..];
    }
  }

  /** What reaches the muxer queue when the items in `order` are flushed: `accept` says whether
      the queue takes a packet offered at a step; a stream once refused is not offered again. */
  function Delivered(order: seq<(nat, Item)>, accept: nat -> bool): (r: (seq<(nat, Item)>, set<nat>))
  {
    if order == [] then ([], {})
    else
      var n := |order| - 1;
      var (i, x) := order[n];
      var (queue, eof) := Delivered(order[..n], accept);
      if x.Finish? then (queue + [(i, x)], eof)
      else if i in eof then (queue, eof)
      else if accept(n) then (queue + [(i, x)], eof)
      else (queue, eof + {i})
  }

  /** The first `n` items, and of the rest only the marks that the stream has finished. */
  function Taken(xs: seq<Item>, n: nat): seq<Item> {
    if xs == [] then []
    else
      var k := |xs| - 1;
      if k < n || xs[k].Finish? then Taken(xs[..k], n) + [xs[k]] else Taken(xs[..k], n)
  }

  lemma {:induction false} TakenAll(xs: seq<Item>, n: nat)
    requires n >= |xs|
    ensures Taken(xs, n) == xs
  {
    if xs != [] {
      TakenAll(xs[..|xs| - 1], n);
    }
  }

  /** The items of `order` that reach stream `i` of the queue are all of them up to the packet
      that is refused first, and from then on only the marks that the stream has finished. */
  lemma {:induction false} DeliveredInOrder(order: seq<(nat, Item)>, accept: nat -> bool, i: nat) returns (n: nat)
    ensures Only(Delivered(order, accept).0, i) == Taken(Only(order, i), n)
    ensures i !in Delivered(order, accept).1 ==> n == |Only(order, i)|
    ensures i in Delivered(order, accept).1 ==> n < |Only(order, i)| && Only(order, i)[n].Data?
  {
    if order == [] {
      n := 0;
    } else {
      var m := |order| - 1;
      var (k, x) := order[m];
      var before := Only(order[..m], i);
      var (queue, eof) := Delivered(order[..m], accept);
      assert order[..m] + [order[m]] == order;
      n := DeliveredInOrder(order[..m], accept, i);
      OnlyAppend(order[..m], order[m], i);
      OnlyAppend(queue, order[m], i);
      if k == i {
        assert (before + [x])[..|before|] == before;
        if i !in eof && (x.Finish? || accept(m)) {
          TakenAll(before, n);
          n := n + 1;
          TakenAll(before + [x], n);
        }
      }
    }
  }

  lemma OnlyAppend(order: seq<(nat, Item)>, e: (nat, Item), i: nat)
    ensures e.0 == i ==> Only(order + [e], i) == Only(order, i) + [e.1]
    ensures e.0 != i ==> Only(order + [e], i) == Only(order, i)
  {
    assert (order + [e])[..|order|] == order;
    assert Only(order, i) + [] == Only(order, i);
  }

  // ----- one step of the flush

  ghost predicate Flushing(start: seq<seq<Item>>, fifos: seq<seq<Item>>, order: seq<(nat, Item)>) {
    && |fifos| == |start|
    && (forall i | 0 <= i < |fifos| :: start[i] == Only(order, i) + fifos[i])
    && (Sortable(start) ==> Sortable(fifos) && Merged(order) && Ahead(order, fifos))
  }

  lemma FlushStep(start: seq<seq<Item>>, fifos: seq<seq<Item>>, order: seq<(nat, Item)>, i: nat)
    requires Flushing(start, fifos, order) && Chosen(fifos, i)
    ensures Flushing(start, fifos[i := fifos[i][1..]], order + [(i, fifos[i][0])])
    ensures Items(fifos[i := fifos[i][1..]]) < Items(fifos)
  {
    OneItemLess(fifos, i);
    var fifos', order' := fifos[i := fifos[i][1..]], order + [(i, fifos[i][0])];
    forall k | 0 <= k < |fifos| ensures start[k] == Only(order', k) + fifos'[k] {
      OnlyAppend(order, (i, fifos[i][0]), k);
    }
    if Sortable(start) {
      MergeStep(order, fifos, i);
    }
  }

  ghost predicate Handed(order: seq<(nat, Item)>, accept: nat -> bool, queue: seq<(nat, Item)>, eof: seq<bool>) {
    && queue == Delivered(order, accept).0
    && forall i | 0 <= i < |eof| :: eof[i] <==> i in Delivered(order, accept).1
  }

  lemma DeliveredStep(order: seq<(nat, Item)>, e: (nat, Item), accept: nat -> bool)
    ensures var (queue, eof) := Delivered(order, accept);
      Delivered(order + [e], accept) ==
        if e.1.Finish? || (e.0 !in eof && accept(|order|)) then (queue + [e], eof)
        else if e.0 in eof then (queue, eof)
        else (queue, eof + {e.0})
  {
    assert (order + [e])[..|order|] == order;
  }

  lemma Flushed(start: seq<seq<Item>>, fifos: seq<seq<Item>>, order: seq<(nat, Item)>)
    requires Flushing(start, fifos, order) && AllEmpty(fifos)
    ensures forall i | 0 <= i < |start| :: Only(order, i) == start[i]
  {
    forall i | 0 <= i < |start| ensures Only(order, i) == start[i] {
      assert start[i] == Only(order, i) + [];
    }
  }

  class Mux {
    var fifos: seq<seq<Item>>
    var initEof: seq<bool>
    var started: bool
    // the stream and the item of every successful send to the muxer's thread queue
    var queue: seq<(nat, Item)>

    constructor (fifos: seq<seq<Item>>)
      ensures this.fifos == fifos && |initEof| == |fifos| && !started && queue == []
      ensures forall i | 0 <= i < |fifos| :: !initEof[i]
    {
      this.fifos := fifos;
      initEof := seq(|fifos|, _ => false);
      started := false;
      queue := [];
    }

    /** Hand an item taken from a pre-muxing queue to the thread queue, which may be done with
        the stream. */
    method Offer(i: nat, x: Item, accepted: bool)
      requires i < |initEof|
      modifies `queue, `initEof
      ensures queue == if x.Finish? || (!old(initEof)[i] && accepted) then old(queue) + [(i, x)] else old(queue)
      ensures initEof == old(initEof)[i := old(initEof)[i] || (x.Data? && !accepted)]
    {
      if x.Data? {
        if !initEof[i] {
          if accepted {
            queue := queue + [(i, x)];
          } else {
            initEof := initEof[i := true];
          }
        }
      } else {
        queue := queue + [(i, x)];
      }
    }

    /** One round of the flush: the chosen stream gives up its head. */
    method FlushOne(ghost start: seq<seq<Item>>, i: nat, accept: nat -> bool, order: seq<(nat, Item)>)
      returns (order': seq<(nat, Item)>)
      requires |initEof| == |start| && Flushing(start, fifos, order) && Handed(order, accept, queue, initEof)
      requires Chosen(fifos, i)
      modifies `fifos, `queue, `initEof
      ensures |initEof| == |start| && Flushing(start, fifos, order') && Handed(order', accept, queue, initEof)
      ensures Items(fifos) < Items(old(fifos))
    {
      var x := fifos[i][0];
      FlushStep(start, fifos, order, i);
      fifos := fifos[i := fifos[i][1..]];
      DeliveredStep(order, (i, x), accept);
      Offer(i, x, accept(|order|));
      order' := order + [(i, x)];
    }

    /** The flush of `mux_task_start`. `order` is the order in which items leave the pre-muxing
        queues. They all leave, every stream in its own order and, where timestamps allow it,
        all streams together in the order of time. */
    method MuxTaskStart(accept: nat -> bool) returns (order: seq<(nat, Item)>)
      requires |initEof| == |fifos| && (forall i | 0 <= i < |fifos| :: !initEof[i]) && queue == []
      modifies this
      ensures started && |fifos| == |old(fifos)| && AllEmpty(fifos)
      ensures forall i | 0 <= i < |fifos| :: Only(order, i) == old(fifos)[i]
      ensures queue == Delivered(order, accept).0
      ensures Sortable(old(fifos)) ==> Merged(order)
    {
      order := [];
      ghost var start := fifos;
      assert Flushing(start, fifos, order) && Handed(order, accept, queue, initEof);
      var min := MinStream(fifos);
      while min.Some?
        invariant |initEof| == |start| && Flushing(start, fifos, order) && Handed(order, accept, queue, initEof)
        invariant if min.Some? then Chosen(fifos, min.value) else AllEmpty(fifos)
        decreases Items(fifos)
      {
        order := FlushOne(start, min.value, accept, order);
        min := MinStream(fifos);
      }
      Flushed(start, fifos, order);
      started := true;
    }
  }
}

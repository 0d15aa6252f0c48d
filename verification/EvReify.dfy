/** Queueing many events at once, as timers_reify does: what happens to the pending queues. */
module EvReify {
  import opened Common
  import opened EvWatcher
  import opened EvPending

  const EV_TIMER: nat := 8

  /** The watchers of a sequence that are in a set are cleared, one after the other. */
  ghost function ClearAll(s: State, dummy: Watcher, order: seq<Watcher>, which: set<Watcher>): (t: State)
    requires Linked(s, dummy) && forall w | w in order :: w in s.pending
    ensures Linked(t, dummy) && t.pending.Keys == s.pending.Keys
  {
    if order == [] then s
    else
      var w, t := order[|order|-1], ClearAll(s, dummy, order[..|order|-1], which);
      if w in which then
        ClearLinks(t, dummy, w);
        Clear(t, dummy, w)
      else t
  }

  lemma ClearAllSnoc(s: State, dummy: Watcher, order: seq<Watcher>, w: Watcher, which: set<Watcher>)
    requires Linked(s, dummy) && w in s.pending && forall v | v in order :: v in s.pending
    ensures var t := ClearAll(s, dummy, order, which);
            Linked(t, dummy) && t.pending.Keys == s.pending.Keys && OwnsSlot(t, w) &&
            ClearAll(s, dummy, order + [w], which) == if w in which then Clear(t, dummy, w) else t
  {
    assert (order + [w])[..|order|] == order;
  }

  /** feed_reverse_done: the watchers of a sequence are fed an event, the last one first. */
  ghost function FeedReverse(s: State, dummy: Watcher, order: seq<Watcher>, event: nat): (t: State)
    requires Linked(s, dummy) && forall w | w in order :: w in s.pending
    ensures Linked(t, dummy) && t.pending.Keys == s.pending.Keys
    decreases |order|
  {
    if order == [] then s
    else
      FeedLinks(s, dummy, order[|order|-1], {event});
      FeedReverse(Feed(s, order[|order|-1], {event}), dummy, order[..|order|-1], event)
  }

  /** feed_reverse_done. */
  method FeedReverseDone(pending: PendingQueues, order: seq<Watcher>, event: nat)
    requires pending.Valid() && forall w | w in order :: w in pending.ws
    modifies pending, pending.ws`pending
    ensures pending.Valid() && Linked(old(pending.View()), pending.dummy)
    ensures pending.View() == FeedReverse(old(pending.View()), pending.dummy, order, event)
  {
    hide Good, Linked, Feed;
    GoodIsLinked(pending.View(), pending.dummy);
    var n := |order|;
    assert order[..n] == order;
    while n > 0
      invariant 0 <= n <= |order| && pending.Valid() && Linked(pending.View(), pending.dummy)
      invariant FeedReverse(pending.View(), pending.dummy, order[..n], event) ==
                FeedReverse(old(pending.View()), pending.dummy, order, event)
    {
      n := n - 1;
      assert order[..n + 1][..n] == order[..n];
      pending.FeedEvent(order[n], {event});
      GoodIsLinked(pending.View(), pending.dummy);
    }
  }

  /** What FeedReverse adds to queue p when nobody was pending. */
  function Batch(order: seq<Watcher>, p: int, event: nat): seq<Slot> {
    if order == [] then []
    else (if Pri(order[|order|-1]) == p then [Slot(order[|order|-1], {event})] else []) +
         Batch(order[..|order|-1], p, event)
  }

  /** The deliveries to the watchers of priority p, in the given order. */
  function Deliveries(order: seq<Watcher>, p: int, event: nat): seq<Served> {
    if order == [] then []
    else Deliveries(order[..|order|-1], p, event) +
         if Pri(order[|order|-1]) == p then [Delivered(order[|order|-1], {event})] else []
  }

  lemma {:induction false} ClearingNobody(s: State, dummy: Watcher, order: seq<Watcher>, which: set<Watcher>)
    requires Linked(s, dummy) && forall w | w in order :: w in s.pending && s.pending[w] == 0
    ensures var t := ClearAll(s, dummy, order, which); t.queues == s.queues && t.pending == s.pending
  {
    if order != [] {
      ClearingNobody(s, dummy, order[..|order|-1], which);
    }
  }

  lemma FeedQueue(s: State, dummy: Watcher, w: Watcher, event: nat, p: nat)
    requires Linked(s, dummy) && p < NUMPRI && w in s.pending && s.pending[w] == 0
    ensures var t := Feed(s, w, {event});
            Shaped(s) && Shaped(t) && t.queues[p] == s.queues[p] + if Pri(w) == p then [Slot(w, {event})] else []
  {
  }

  lemma {:induction false} FeedReverseQueues(s: State, dummy: Watcher, order: seq<Watcher>, event: nat, p: nat)
    requires Linked(s, dummy) && p < NUMPRI && NoDups(order)
    requires forall w | w in order :: w in s.pending && s.pending[w] == 0
    ensures var t := FeedReverse(s, dummy, order, event);
            Shaped(t) && t.queues[p] == s.queues[p] + Batch(order, p, event)
    decreases |order|
  {
    if order != [] {
      var rest, w := order[..|order|-1], order[|order|-1];
      assert order == rest + [w] && w !in rest;
      var b := if Pri(w) == p then [Slot(w, {event})] else [];
      FeedLinks(s, dummy, w, {event});
      FeedQueue(s, dummy, w, event, p);
      FeedReverseQueues(Feed(s, w, {event}), dummy, rest, event, p);
      Associative(s.queues[p], b, Batch(rest, p, event));
    }
    hide Linked, Feed;
  }

  /** The last in the queue is delivered to first: the batch goes in its original order, then
      what was there before. */
  lemma {:induction false} BatchIsDelivered(q: seq<Slot>, dummy: Watcher, order: seq<Watcher>, p: int, event: nat)
    requires dummy !in order
    ensures Emptied(q + Batch(order, p, event), dummy) == Deliveries(order, p, event) + Emptied(q, dummy)
    decreases |order|
  {
    hide Emptied, Batch, Deliveries;
    BatchUnfold(order, p, event);
    if order == [] {
      assert q + Batch(order, p, event) == q;
      assert Deliveries(order, p, event) + Emptied(q, dummy) == Emptied(q, dummy);
    } else {
      var w, rest := order[|order|-1], order[..|order|-1];
      assert order[|order|-1] in order;
      var b := if Pri(w) == p then [Slot(w, {event})] else [];
      var d := if Pri(w) == p then [Delivered(w, {event})] else [];
      Associative(q, b, Batch(rest, p, event));
      BatchIsDelivered(q + b, dummy, rest, p, event);
      EmptiedSnoc(q, b, d, dummy);
      Associative(Deliveries(rest, p, event), d, Emptied(q, dummy));
    }
  }

  lemma BatchUnfold(order: seq<Watcher>, p: int, event: nat)
    ensures order == [] ==> Batch(order, p, event) == [] && Deliveries(order, p, event) == []
    ensures order != [] ==>
              var w, rest := order[|order|-1], order[..|order|-1];
              && Batch(order, p, event) == (if Pri(w) == p then [Slot(w, {event})] else []) + Batch(rest, p, event)
              && Deliveries(order, p, event) ==
                   Deliveries(rest, p, event) + if Pri(w) == p then [Delivered(w, {event})] else []
  {
  }

  lemma Associative<T>(a: seq<T>, b: seq<T>, c: seq<T>)
    ensures a + (b + c) == a + b + c
  {
  }

  lemma EmptiedSnoc(q: seq<Slot>, b: seq<Slot>, d: seq<Served>, dummy: Watcher)
    requires (b == [] && d == []) || (|b| == 1 && b[0].w != dummy && d == [Delivered(b[0].w, b[0].events)])
    ensures Emptied(q + b, dummy) == d + Emptied(q, dummy)
  {
    if b == [] {
      assert q + b == q && d + Emptied(q, dummy) == Emptied(q, dummy);
    } else {
      assert (q + b)[..|q|] == q && (q + b)[|q|] == b[0];
    }
  }

  /** The deliveries that follow: priority by priority, the watchers of the batch in their
      order, then those that were pending before. */
  function Schedule(order: seq<Watcher>, event: nat, queues: seq<seq<Slot>>, dummy: Watcher, p: nat): seq<Served>
    requires p <= |queues|
  {
    if p == 0 then []
    else Deliveries(order, p - 1, event) + Emptied(queues[p-1], dummy) + Schedule(order, event, queues, dummy, p - 1)
  }

  lemma {:induction false} ScheduleIsDrained(s: State, dummy: Watcher, order: seq<Watcher>, event: nat, p: nat)
    requires Linked(s, dummy) && p <= NUMPRI && NoDups(order)
    requires forall w | w in order :: w in s.pending && s.pending[w] == 0
    ensures var t := FeedReverse(s, dummy, order, event);
            Shaped(t) && Drained(t.queues, dummy, p) == Schedule(order, event, s.queues, dummy, p)
    decreases p
  {
    if p > 0 {
      FeedReverseQueues(s, dummy, order, event, p - 1);
      BatchIsDelivered(s.queues[p-1], dummy, order, p - 1, event);
      ScheduleIsDrained(s, dummy, order, event, p - 1);
    }
  }

  ghost function Clears(order: seq<Watcher>, which: set<Watcher>): seq<Served> {
    if order == [] then []
    else
      var w := order[|order|-1];
      Clears(order[..|order|-1], which) + if w in which then [Cleared(w)] else []
  }

  function Feeds(order: seq<Watcher>, event: nat): seq<Served> {
    if order == [] then [] else [Fed(order[|order|-1], {event})] + Feeds(order[..|order|-1], event)
  }

  lemma {:induction false} ClearAllHistory(s: State, dummy: Watcher, order: seq<Watcher>, which: set<Watcher>)
    requires Linked(s, dummy) && forall w | w in order :: w in s.pending
    ensures ClearAll(s, dummy, order, which).history == s.history + Clears(order, which)
  {
    hide Linked, Clear, OwnsSlot;
    if order != [] {
      var w, t := order[|order|-1], ClearAll(s, dummy, order[..|order|-1], which);
      ClearAllHistory(s, dummy, order[..|order|-1], which);
      if w in which {
        ClearLinks(t, dummy, w);
      }
    }
  }

  lemma LinkedOwns(s: State, dummy: Watcher, w: Watcher)
    requires Linked(s, dummy) && w in s.pending
    ensures Shaped(s) && OwnsSlot(s, w)
  {
  }

  lemma {:induction false} FeedReverseHistory(s: State, dummy: Watcher, order: seq<Watcher>, event: nat)
    requires Linked(s, dummy) && forall w | w in order :: w in s.pending
    ensures FeedReverse(s, dummy, order, event).history == s.history + Feeds(order, event)
    decreases |order|
  {
    hide Linked, Feed, OwnsSlot;
    if order != [] {
      var w, rest := order[|order|-1], order[..|order|-1];
      assert order[|order|-1] in order;
      FeedLinks(s, dummy, w, {event});
      LinkedOwns(s, dummy, w);
      FeedHistory(s, w, {event});
      FeedReverseHistory(Feed(s, w, {event}), dummy, rest, event);
      Associative(s.history, [Fed(w, {event})], Feeds(rest, event));
    }
  }

  /** What is recorded when a sequence of watchers, none of them pending, is cleared and fed, and
      what the queues then deliver. */
  lemma BatchIsServed(s: State, dummy: Watcher, order: seq<Watcher>, which: set<Watcher>, event: nat)
    requires Linked(s, dummy) && NoDups(order)
    requires forall w | w in order :: w in s.pending && s.pending[w] == 0
    ensures var t := FeedReverse(ClearAll(s, dummy, order, which), dummy, order, event);
            && t.history == s.history + Clears(order, which) + Feeds(order, event)
            && Shaped(s) && Shaped(t)
            && Drained(t.queues, dummy, NUMPRI) == Schedule(order, event, s.queues, dummy, NUMPRI)
  {
    ClearAllHistory(s, dummy, order, which);
    ClearingNobody(s, dummy, order, which);
    var c := ClearAll(s, dummy, order, which);
    FeedReverseHistory(c, dummy, order, event);
    ScheduleIsDrained(c, dummy, order, event, NUMPRI);
  }

  ghost predicate DeliveredTo(d: seq<Served>, order: seq<Watcher>) {
    forall e | e in d :: e.Delivered? && e.w in order
  }

  /** The deliveries are in the order of the given times. */
  ghost predicate Timely(d: seq<Served>, at: map<Watcher, real>) {
    forall i, j | 0 <= i < j < |d| && d[i].w in at && d[j].w in at :: at[d[i].w] <= at[d[j].w]
  }

  lemma {:induction false} DeliveriesAreFrom(order: seq<Watcher>, p: int, event: nat)
    ensures DeliveredTo(Deliveries(order, p, event), order)
  {
    if order != [] {
      DeliveriesAreFrom(order[..|order|-1], p, event);
    }
  }

  /** Deliveries keep the order of time. */
  lemma {:induction false} DeliveriesInOrder(order: seq<Watcher>, p: int, event: nat, at: map<Watcher, real>)
    requires forall i | 0 <= i < |order| :: order[i] in at
    requires forall i, j | 0 <= i < j < |order| :: at[order[i]] <= at[order[j]]
    ensures Timely(Deliveries(order, p, event), at)
  {
    if order != [] {
      var rest, last := order[..|order|-1], order[|order|-1];
      DeliveriesInOrder(rest, p, event, at);
      DeliveriesAreFrom(rest, p, event);
      var d := Deliveries(rest, p, event);
      forall e | e in d ensures e.w in at && at[e.w] <= at[last] {
        var i :| 0 <= i < |rest| && rest[i] == e.w;
        assert order[i] == e.w;
      }
    }
  }

  /** Exactly the watchers of the priority are delivered to. */
  lemma {:induction false} DeliveriesReach(order: seq<Watcher>, p: int, event: nat, w: Watcher)
    ensures Delivered(w, {event}) in Deliveries(order, p, event) <==> w in order && Pri(w) == p
  {
    if order != [] {
      DeliveriesReach(order[..|order|-1], p, event, w);
      assert order == order[..|order|-1] + [order[|order|-1]];
    }
  }

  // ---------- a batch lies above what was pending ----------

  /** Feeding watchers that were not pending leaves the others where they are, and puts these above
      all slots there were. */
  lemma {:induction false} BatchLiesAbove(s: State, dummy: Watcher, order: seq<Watcher>, event: nat, w: Watcher)
    requires Linked(s, dummy) && NoDups(order) && w in s.pending
    requires forall v | v in order :: v in s.pending && s.pending[v] == 0
    ensures var t := FeedReverse(s, dummy, order, event);
            && Shaped(s) && w in t.pending
            && (w !in order ==> t.pending[w] == s.pending[w])
            && (w in order ==> t.pending[w] > |s.queues[Pri(w)]|)
            && OwnsSlot(s, w) && OwnsSlot(t, w)
            && Waiting(t, w) == if w in order then Due({event}) else Waiting(s, w)
    decreases |order|
  {
    if order != [] {
      var n := |order| - 1;
      var rest, last := order[..n], order[n];
      assert order == rest + [last];
      FeedLinks(s, dummy, last, {event});
      FeedSlot(s, dummy, last, event);
      BatchLiesAbove(Feed(s, last, {event}), dummy, rest, event, w);
      assert last !in rest;
    }
    hide Linked, Feed;
  }

  lemma FeedSlot(s: State, dummy: Watcher, w: Watcher, event: nat)
    requires Linked(s, dummy) && w in s.pending && s.pending[w] == 0
    ensures var t := Feed(s, w, {event});
            && Shaped(s) && Shaped(t) && t.pending[w] == |s.queues[Pri(w)]| + 1 == |t.queues[Pri(w)]|
            && forall p: nat | p < NUMPRI :: |s.queues[p]| <= |t.queues[p]|
  {
  }

  /** Earlier in the order is nearer to the top. */
  lemma {:induction false} BatchInOrder(s: State, dummy: Watcher, order: seq<Watcher>, event: nat, i: nat, j: nat)
    requires Linked(s, dummy) && NoDups(order) && i < j < |order| && order[i].priority == order[j].priority
    requires forall v | v in order :: v in s.pending && s.pending[v] == 0
    ensures Above(FeedReverse(s, dummy, order, event), order[i], order[j])
    decreases |order|
  {
    var n := |order| - 1;
    var rest, last := order[..n], order[n];
    assert order == rest + [last] && order[i] == rest[i] && order[i] in order && last !in rest;
    FeedLinks(s, dummy, last, {event});
    FeedSlot(s, dummy, last, event);
    var t := Feed(s, last, {event});
    if j < n {
      assert order[j] == rest[j];
      BatchInOrder(t, dummy, rest, event, i, j);
    } else {
      BatchLiesAbove(t, dummy, rest, event, last);
      BatchLiesAbove(t, dummy, rest, event, order[i]);
    }
    hide Linked, Feed;
  }

  /** What is above what once a batch is queued: the watchers of the batch in their order, and all
      of them above those that were pending. */
  lemma QueuedAbove(s: State, dummy: Watcher, order: seq<Watcher>, which: set<Watcher>, event: nat)
    requires Linked(s, dummy) && NoDups(order)
    requires forall w | w in order :: w in s.pending && s.pending[w] == 0
    ensures var t := FeedReverse(ClearAll(s, dummy, order, which), dummy, order, event);
            && (forall i: nat, j: nat | i < j < |order| && order[i].priority == order[j].priority :: Above(t, order[i], order[j]))
            && (forall u, v | u in order && v in s.pending && s.pending[v] > 0 && u.priority == v.priority :: Above(t, u, v))
  {
    ClearingNobody(s, dummy, order, which);
    var c := ClearAll(s, dummy, order, which);
    var t := FeedReverse(c, dummy, order, event);
    forall i: nat, j: nat | i < j < |order| && order[i].priority == order[j].priority ensures Above(t, order[i], order[j]) {
      BatchInOrder(c, dummy, order, event, i, j);
    }
    forall u, v | u in order && v in s.pending && s.pending[v] > 0 && u.priority == v.priority ensures Above(t, u, v) {
      BatchLiesAbove(c, dummy, order, event, u);
      BatchLiesAbove(c, dummy, order, event, v);
      assert OwnsSlot(c, v);
    }
    hide FeedReverse, ClearAll;
  }

  /** How a batch is served: each watcher of it is delivered to, unless it is cleared first; its
      delivery has the event of the batch; earlier in the order comes first, and all of them come
      before the watchers of their priority that were pending. */
  ghost predicate BatchServed(events: seq<Served>, order: seq<Watcher>, event: nat, before: State) {
    && (forall u | u in order :: Settled(events, u))
    && (forall i | 0 <= i < |events| && events[i].Delivered? && events[i].w in order && !Settled(events[..i], events[i].w) ::
          event in events[i].events)
    && (forall i: nat, j: nat | i < j < |order| && order[i].priority == order[j].priority :: FirstServed(events, order[i], order[j]))
    && (forall u, v | u in order && v in before.pending && before.pending[v] > 0 && u.priority == v.priority ::
          FirstServed(events, u, v))
  }

  lemma NothingLeft(z: State, dummy: Watcher, w: Watcher)
    requires Good(z, dummy) && w in z.pending && forall p: nat | p < NUMPRI :: z.queues[p] == []
    ensures Owed(z.history, w).Nothing?
  {
    assert OwnsSlot(z, w) && Waiting(z, w) == Owed(z.history, w);
    hide Owed, WellServed;
  }

  lemma DeliveryIsDue(z: State, dummy: Watcher, base: nat, i: nat)
    requires Good(z, dummy) && base + i < |z.history| && z.history[base + i].Delivered?
    ensures Owed(z.history[..base] + z.history[base..][..i], z.history[base + i].w) == Due(z.history[base + i].events)
  {
    assert ServedWell(z.history, base + i, z.pending.Keys);
    assert z.history[..base] + z.history[base..][..i] == z.history[..base + i];
    hide Owed;
  }

  /** Whatever the callbacks do, a batch that is queued and then served in order is served well. */
  lemma BatchIsServedWell(s: State, t: State, z: State, dummy: Watcher, order: seq<Watcher>, which: set<Watcher>, event: nat)
    requires Linked(s, dummy) && NoDups(order)
    requires forall w | w in order :: w in s.pending && s.pending[w] == 0
    requires t == FeedReverse(ClearAll(s, dummy, order, which), dummy, order, event) && Good(t, dummy)
    requires ServesInOrder(t, z) && Good(z, dummy) && z.pending.Keys == t.pending.Keys
    requires forall p: nat | p < NUMPRI :: z.queues[p] == []
    ensures BatchServed(z.history[|t.history|..], order, event, s)
  {
    hide Good, Linked, Owed, FeedReverse, ClearAll, FirstServed, Settled, Above, WellServed;
    var base := |t.history|;
    var events := z.history[base..];
    assert z.history[..base] == t.history && t.history + events == z.history;
    forall u | u in order ensures Owed(t.history, u) == Due({event}) && Settled(events, u) {
      BatchIsDue(s, t, dummy, order, which, event, u);
      NothingLeft(z, dummy, u);
      if !Settled(events, u) {
        DueUntilSettled(t.history, events, u);
      }
    }
    forall i | 0 <= i < |events| && events[i].Delivered? && events[i].w in order && !Settled(events[..i], events[i].w)
      ensures event in events[i].events
    {
      DeliveryIsDue(z, dummy, base, i);
      DueUntilSettled(t.history, events[..i], events[i].w);
    }
    QueuedAbove(s, dummy, order, which, event);
    KeysStay(s, t, dummy, order, which, event);
    forall i: nat, j: nat | i < j < |order| && order[i].priority == order[j].priority
      ensures FirstServed(events, order[i], order[j])
    {
      assert order[i] in order && order[j] in order;
      assert PairInOrder(base, z, order[i], order[j]);
    }
    forall u, v | u in order && v in s.pending && s.pending[v] > 0 && u.priority == v.priority ensures FirstServed(events, u, v) {
      assert PairInOrder(base, z, u, v);
    }
  }

  lemma KeysStay(s: State, t: State, dummy: Watcher, order: seq<Watcher>, which: set<Watcher>, event: nat)
    requires Linked(s, dummy) && forall w | w in order :: w in s.pending
    requires t == FeedReverse(ClearAll(s, dummy, order, which), dummy, order, event)
    ensures t.pending.Keys == s.pending.Keys
  {
  }

  lemma BatchIsDue(s: State, t: State, dummy: Watcher, order: seq<Watcher>, which: set<Watcher>, event: nat, u: Watcher)
    requires Linked(s, dummy) && NoDups(order) && u in order
    requires forall w | w in order :: w in s.pending && s.pending[w] == 0
    requires t == FeedReverse(ClearAll(s, dummy, order, which), dummy, order, event) && Good(t, dummy)
    ensures Owed(t.history, u) == Due({event}) && u in t.pending
  {
    ClearingNobody(s, dummy, order, which);
    BatchLiesAbove(ClearAll(s, dummy, order, which), dummy, order, event, u);
    assert Waiting(t, u) == Owed(t.history, u);
    hide Owed, FeedReverse, ClearAll, WellServed;
  }
}

/** The pending queues of libev: one per priority, emptied from the top, highest priority first. */
module EvPending {
  import opened EvWatcher

  /** A mask of event bits. */
  type Events = set<nat>

  /** ANPENDING. */
  datatype Slot = Slot(w: Watcher, events: Events)

  // ---------- the history of a loop ----------

  datatype Served = Fed(w: Watcher, events: Events) | Cleared(w: Watcher) | Delivered(w: Watcher, events: Events)

  datatype Due = Nothing | Due(events: Events)

  /** What w is due according to the history: all events it was fed since it was last
      delivered to or cleared. */
  function Owed(history: seq<Served>, w: Watcher): Due {
    if history == [] then Nothing
    else
      var before, e := Owed(history[..|history|-1], w), history[|history|-1];
      if e.w != w then before
      else if e.Fed? then Due(if before.Due? then before.events + e.events else e.events)
      else Nothing
  }

  /** Event number i, if it is a delivery, passes exactly what was due, to a watcher that was due
      something, while no watcher of a higher priority was. */
  ghost predicate ServedWell(history: seq<Served>, i: nat, ws: set<Watcher>)
    requires i < |history|
  {
    history[i].Delivered? ==>
      && Owed(history[..i], history[i].w) == Due(history[i].events)
      && forall v | v in ws && v.priority > history[i].w.priority :: Owed(history[..i], v).Nothing?
  }

  ghost predicate WellServed(history: seq<Served>, ws: set<Watcher>) {
    forall i: nat | i < |history| :: ServedWell(history, i, ws)
  }

  lemma OwedSnoc(history: seq<Served>, e: Served, w: Watcher)
    ensures Owed(history + [e], w) ==
              var before := Owed(history, w);
              if e.w != w then before
              else if e.Fed? then Due(if before.Due? then before.events + e.events else e.events)
              else Nothing
  {
    assert (history + [e])[..|history|] == history;
  }

  lemma WellServedSnoc(history: seq<Served>, e: Served, ws: set<Watcher>)
    requires WellServed(history, ws)
    requires e.Delivered? ==>
               Owed(history, e.w) == Due(e.events) &&
               forall v | v in ws && v.priority > e.w.priority :: Owed(history, v).Nothing?
    ensures WellServed(history + [e], ws)
  {
    var h := history + [e];
    forall i: nat | i < |h| ensures ServedWell(h, i, ws) {
      if i < |history| {
        assert h[..i] == history[..i];
        assert ServedWell(history, i, ws);
      } else {
        assert h[..i] == history;
      }
    }
  }

  // ---------- what callbacks do ----------

  datatype Op = FeedOp(w: Watcher, events: Events) | ClearOp(w: Watcher)

  /** The number of slots in all queues. */
  function Slots(queues: seq<seq<Slot>>): nat {
    if queues == [] then 0 else |queues[0]| + Slots(queues[1..])
  }

  lemma {:induction false} SlotsUpdate(queues: seq<seq<Slot>>, p: nat, q: seq<Slot>)
    requires p < |queues|
    ensures Slots(queues[p := q]) == Slots(queues) - |queues[p]| + |q|
    decreases p
  {
    if p == 0 {
      assert queues[0 := q][1..] == queues[1..];
    } else {
      assert queues[p := q][1..] == queues[1..][p-1 := q];
      SlotsUpdate(queues[1..], p - 1, q);
    }
  }

  // ---------- the queues as a value ----------

  /** The queues, the field `pending` of every watcher, and the history. */
  datatype State = State(queues: seq<seq<Slot>>, pending: map<Watcher, nat>, history: seq<Served>)

  predicate Shaped(s: State) {
    |s.queues| == NUMPRI && forall w | w in s.pending :: 0 <= Pri(w) < NUMPRI
  }

  /** A pending watcher owns the slot it points to. */
  predicate OwnsSlot(s: State, w: Watcher)
    requires Shaped(s) && w in s.pending
  {
    var n := s.pending[w];
    n != 0 ==> n <= |s.queues[Pri(w)]| && s.queues[Pri(w)][n-1].w == w
  }

  /** A slot is the dummy's, or that of the watcher that points to it. */
  predicate SlotIsOwned(s: State, dummy: Watcher, p: nat, j: nat)
    requires Shaped(s) && p < NUMPRI && j < |s.queues[p]|
  {
    var w := s.queues[p][j].w;
    w != dummy ==> w in s.pending && Pri(w) == p && s.pending[w] == j + 1
  }

  predicate Linked(s: State, dummy: Watcher) {
    && Shaped(s) && dummy !in s.pending
    && (forall w | w in s.pending :: OwnsSlot(s, w))
    && (forall p: nat, j: nat | p < NUMPRI && j < |s.queues[p]| :: SlotIsOwned(s, dummy, p, j))
  }

  /** The events waiting for w. */
  function Waiting(s: State, w: Watcher): Due
    requires Shaped(s) && w in s.pending && OwnsSlot(s, w)
  {
    if s.pending[w] == 0 then Nothing else Due(s.queues[Pri(w)][s.pending[w]-1].events)
  }

  /** The queues hold exactly what the history says is due, and it was served well. */
  ghost predicate Good(s: State, dummy: Watcher) {
    && Linked(s, dummy)
    && (forall w | w in s.pending :: Waiting(s, w) == Owed(s.history, w))
    && WellServed(s.history, s.pending.Keys)
  }

  function Feed(s: State, w: Watcher, revents: Events): State
    requires Shaped(s) && w in s.pending && OwnsSlot(s, w)
  {
    var q, n, h := s.queues[Pri(w)], s.pending[w], s.history + [Fed(w, revents)];
    if n != 0 then
      State(s.queues[Pri(w) := q[n-1 := Slot(w, q[n-1].events + revents)]], s.pending, h)
    else
      State(s.queues[Pri(w) := q + [Slot(w, revents)]], s.pending[w := |q| + 1], h)
  }

  function Clear(s: State, dummy: Watcher, w: Watcher): State
    requires Shaped(s) && w in s.pending && OwnsSlot(s, w)
  {
    var q, n, h := s.queues[Pri(w)], s.pending[w], s.history + [Cleared(w)];
    if n == 0 then s.(history := h)
    else State(s.queues[Pri(w) := q[n-1 := q[n-1].(w := dummy)]], s.pending[w := 0], h)
  }

  /** Takes the last slot of queue p; the dummy's is dropped, any other delivered. */
  function Pop(s: State, dummy: Watcher, p: nat): State
    requires Shaped(s) && p < NUMPRI && s.queues[p] != []
  {
    var q := s.queues[p];
    var slot, queues := q[|q|-1], s.queues[p := q[..|q|-1]];
    if slot.w == dummy then s.(queues := queues)
    else State(queues, s.pending[slot.w := 0], s.history + [Delivered(slot.w, slot.events)])
  }

  lemma OwedAfter(h: seq<Served>, e: Served, ws: set<Watcher>)
    ensures forall v | v in ws && v != e.w :: Owed(h + [e], v) == Owed(h, v)
  {
    forall v | v in ws && v != e.w ensures Owed(h + [e], v) == Owed(h, v) {
      OwedSnoc(h, e, v);
    }
  }

  lemma FeedLinks(s: State, dummy: Watcher, w: Watcher, revents: Events)
    requires Linked(s, dummy) && w in s.pending
    ensures Linked(Feed(s, w, revents), dummy)
    ensures var t := Feed(s, w, revents);
            t.pending.Keys == s.pending.Keys && t.pending[w] != 0 &&
            Waiting(t, w) == Due(if s.pending[w] != 0 then Waiting(s, w).events + revents else revents) &&
            forall v | v in s.pending && v != w :: t.pending[v] == s.pending[v] && Waiting(t, v) == Waiting(s, v)
  {
    var t := Feed(s, w, revents);
    forall v | v in t.pending ensures OwnsSlot(t, v) {
      assert OwnsSlot(s, v);
    }
    forall p: nat, j: nat | p < NUMPRI && j < |t.queues[p]| ensures SlotIsOwned(t, dummy, p, j) {
      if j < |s.queues[p]| {
        assert SlotIsOwned(s, dummy, p, j);
      }
    }
  }

  lemma FeedIsGood(s: State, dummy: Watcher, w: Watcher, revents: Events)
    requires Good(s, dummy) && w in s.pending
    ensures Good(Feed(s, w, revents), dummy)
  {
    FeedLinks(s, dummy, w, revents);
    OwedAfter(s.history, Fed(w, revents), s.pending.Keys);
    OwedSnoc(s.history, Fed(w, revents), w);
    WellServedSnoc(s.history, Fed(w, revents), s.pending.Keys);
    hide WellServed, Linked, Feed, Owed;
    assert Waiting(s, w) == Owed(s.history, w);
    assert Feed(s, w, revents).history == s.history + [Fed(w, revents)] by { FeedHistory(s, w, revents); }
  }

  lemma FeedHistory(s: State, w: Watcher, revents: Events)
    requires Shaped(s) && w in s.pending && OwnsSlot(s, w)
    ensures Feed(s, w, revents).history == s.history + [Fed(w, revents)]
  {
  }

  lemma ClearLinks(s: State, dummy: Watcher, w: Watcher)
    requires Linked(s, dummy) && w in s.pending
    ensures var t := Clear(s, dummy, w);
            && Linked(t, dummy) && t.history == s.history + [Cleared(w)]
            && t.pending.Keys == s.pending.Keys && t.pending[w] == 0
            && forall v | v in s.pending && v != w :: t.pending[v] == s.pending[v] && Waiting(t, v) == Waiting(s, v)
  {
    var t := Clear(s, dummy, w);
    assert OwnsSlot(s, w);
    forall v | v in t.pending ensures OwnsSlot(t, v) {
      assert OwnsSlot(s, v);
    }
    forall p: nat, j: nat | p < NUMPRI && j < |t.queues[p]| ensures SlotIsOwned(t, dummy, p, j) {
      assert SlotIsOwned(s, dummy, p, j);
    }
  }

  lemma ClearIsGood(s: State, dummy: Watcher, w: Watcher)
    requires Good(s, dummy) && w in s.pending
    ensures Good(Clear(s, dummy, w), dummy)
  {
    hide WellServed, Linked, Clear, Owed;
    ClearLinks(s, dummy, w);
    OwedAfter(s.history, Cleared(w), s.pending.Keys);
    OwedSnoc(s.history, Cleared(w), w);
    WellServedSnoc(s.history, Cleared(w), s.pending.Keys);
  }

  lemma PopLinks(s: State, dummy: Watcher, p: nat)
    requires Linked(s, dummy) && p < NUMPRI && s.queues[p] != []
    ensures var t, slot := Pop(s, dummy, p), s.queues[p][|s.queues[p]|-1];
            && Linked(t, dummy) && t.pending.Keys == s.pending.Keys
            && (slot.w == dummy ==> t.history == s.history)
            && (slot.w != dummy ==> slot.w in s.pending && Pri(slot.w) == p && t.pending[slot.w] == 0 &&
                                    Waiting(s, slot.w) == Due(slot.events) &&
                                    t.history == s.history + [Delivered(slot.w, slot.events)])
            && forall v | v in s.pending && v != slot.w :: t.pending[v] == s.pending[v] && Waiting(t, v) == Waiting(s, v)
  {
    var t := Pop(s, dummy, p);
    var n := |s.queues[p]|;
    assert SlotIsOwned(s, dummy, p, n - 1);
    forall v | v in t.pending ensures OwnsSlot(t, v) {
      assert OwnsSlot(s, v);
    }
    forall q: nat, j: nat | q < NUMPRI && j < |t.queues[q]| ensures SlotIsOwned(t, dummy, q, j) {
      assert SlotIsOwned(s, dummy, q, j);
    }
  }

  /** While the queues above p are empty, nobody of a higher priority is due anything. */
  lemma NobodyAbove(s: State, dummy: Watcher, p: nat, v: Watcher)
    requires Linked(s, dummy) && p < NUMPRI && v in s.pending && Pri(v) > p
    requires forall q: nat | p < q < NUMPRI :: s.queues[q] == []
    ensures Waiting(s, v).Nothing?
  {
    assert OwnsSlot(s, v);
  }

  lemma PopIsGood(s: State, dummy: Watcher, p: nat)
    requires Good(s, dummy) && p < NUMPRI && s.queues[p] != []
    requires forall q: nat | p < q < NUMPRI :: s.queues[q] == []
    ensures Good(Pop(s, dummy, p), dummy)
  {
    var slot := s.queues[p][|s.queues[p]|-1];
    hide WellServed, Linked, Pop, Owed;
    PopLinks(s, dummy, p);
    if slot.w != dummy {
      var e := Delivered(slot.w, slot.events);
      forall v | v in s.pending && v.priority > slot.w.priority ensures Owed(s.history, v).Nothing? {
        NobodyAbove(s, dummy, p, v);
      }
      OwedAfter(s.history, e, s.pending.Keys);
      OwedSnoc(s.history, e, slot.w);
      WellServedSnoc(s.history, e, s.pending.Keys);
    }
  }

  // ---------- the order of one queue ----------

  /** w was delivered to or cleared. */
  ghost predicate Settled(events: seq<Served>, w: Watcher) {
    exists e | e in events :: e.w == w && !e.Fed?
  }

  /** u and v are pending at the same priority, and u is nearer to the top. */
  predicate Above(s: State, u: Watcher, v: Watcher) {
    u in s.pending && v in s.pending && u.priority == v.priority && s.pending[u] > s.pending[v] > 0
  }

  /** Whenever v, not yet settled, was delivered to, u had been settled. */
  ghost predicate FirstServed(events: seq<Served>, u: Watcher, v: Watcher) {
    forall i | 0 <= i < |events| && events[i].Delivered? && events[i].w == v && !Settled(events[..i], v) ::
      Settled(events[..i], u)
  }

  /** Since a state with u above v: they are served in this order, and stay above one another until
      one of them is settled. */
  ghost predicate PairInOrder(base: nat, s: State, u: Watcher, v: Watcher) {
    && base <= |s.history| && FirstServed(s.history[base..], u, v)
    && (!Settled(s.history[base..], u) && !Settled(s.history[base..], v) ==> Above(s, u, v))
  }

  ghost predicate ServesInOrder(s0: State, s: State) {
    && s0.history <= s.history
    && forall u, v | u in s0.pending && v in s0.pending && Above(s0, u, v) :: PairInOrder(|s0.history|, s, u, v)
  }

  lemma InOrderStart(s: State)
    ensures ServesInOrder(s, s)
  {
    assert s.history[|s.history|..] == [];
  }

  lemma SettledSnoc(events: seq<Served>, e: Served, w: Watcher)
    ensures Settled(events + [e], w) <==> Settled(events, w) || (e.w == w && !e.Fed?)
  {
    assert forall x | x in events + [e] :: x in events || x == e;
    assert e in events + [e];
    assert forall x | x in events :: x in events + [e];
  }

  lemma FirstServedSnoc(events: seq<Served>, e: Served, u: Watcher, v: Watcher)
    requires FirstServed(events, u, v)
    requires e.Delivered? && e.w == v && !Settled(events, v) ==> Settled(events, u)
    ensures FirstServed(events + [e], u, v)
  {
    hide Settled;
    var h := events + [e];
    forall i | 0 <= i < |h| && h[i].Delivered? && h[i].w == v && !Settled(h[..i], v) ensures Settled(h[..i], u) {
      if i < |events| {
        assert h[..i] == events[..i];
      } else {
        assert h[..i] == events;
      }
    }
  }

  /** An event that settles nobody but w, and moves only w. */
  lemma PairStep(base: nat, s: State, t: State, e: Served, u: Watcher, v: Watcher)
    requires PairInOrder(base, s, u, v) && t.history == s.history + [e]
    requires e.Fed? ==> (Above(s, u, v) ==> Above(t, u, v))
    requires !e.Fed? && e.w != u && e.w != v ==> (Above(s, u, v) ==> Above(t, u, v))
    requires e.Delivered? && e.w == v ==> !Above(s, u, v)
    ensures PairInOrder(base, t, u, v)
  {
    hide Settled, FirstServed, Above;
    var events := s.history[base..];
    assert t.history[base..] == events + [e];
    SettledSnoc(events, e, u);
    SettledSnoc(events, e, v);
    FirstServedSnoc(events, e, u, v);
  }

  lemma FeedInOrder(s0: State, s: State, w: Watcher, revents: Events)
    requires ServesInOrder(s0, s) && Shaped(s) && w in s.pending && OwnsSlot(s, w)
    requires forall v | v in s.pending :: OwnsSlot(s, v)
    ensures ServesInOrder(s0, Feed(s, w, revents))
  {
    var t := Feed(s, w, revents);
    FeedHistory(s, w, revents);
    forall u, v | u in s0.pending && v in s0.pending && Above(s0, u, v) ensures PairInOrder(|s0.history|, t, u, v) {
      FeedKeepsAbove(s, w, revents, u, v);
      PairStep(|s0.history|, s, t, Fed(w, revents), u, v);
    }
    hide PairInOrder, Feed;
  }

  lemma FeedKeepsAbove(s: State, w: Watcher, revents: Events, u: Watcher, v: Watcher)
    requires Shaped(s) && w in s.pending && OwnsSlot(s, w)
    ensures Above(s, u, v) ==> Above(Feed(s, w, revents), u, v)
  {
  }

  lemma ClearInOrder(s0: State, s: State, dummy: Watcher, w: Watcher)
    requires ServesInOrder(s0, s) && Shaped(s) && w in s.pending && OwnsSlot(s, w)
    ensures ServesInOrder(s0, Clear(s, dummy, w))
  {
    var t := Clear(s, dummy, w);
    forall u, v | u in s0.pending && v in s0.pending && Above(s0, u, v) ensures PairInOrder(|s0.history|, t, u, v) {
      PairStep(|s0.history|, s, t, Cleared(w), u, v);
    }
    hide PairInOrder;
  }

  /** The last slot of a queue is never that of the lower of two. */
  lemma PopInOrder(s0: State, s: State, dummy: Watcher, p: nat)
    requires ServesInOrder(s0, s) && Linked(s, dummy) && p < NUMPRI && s.queues[p] != []
    ensures ServesInOrder(s0, Pop(s, dummy, p))
  {
    var t := Pop(s, dummy, p);
    PopLinks(s, dummy, p);
    var slot := s.queues[p][|s.queues[p]|-1];
    forall u, v | u in s0.pending && v in s0.pending && Above(s0, u, v) ensures PairInOrder(|s0.history|, t, u, v) {
      if slot.w == dummy {
        assert t.pending == s.pending && t.history == s.history;
      } else {
        TopIsNotBelow(s, dummy, p, u, v);
        PairStep(|s0.history|, s, t, Delivered(slot.w, slot.events), u, v);
      }
    }
    hide PairInOrder;
  }

  lemma TopIsNotBelow(s: State, dummy: Watcher, p: nat, u: Watcher, v: Watcher)
    requires Linked(s, dummy) && p < NUMPRI && s.queues[p] != []
    ensures s.queues[p][|s.queues[p]|-1].w == v ==> !Above(s, u, v)
  {
    assert SlotIsOwned(s, dummy, p, |s.queues[p]| - 1);
    assert u in s.pending ==> OwnsSlot(s, u);
  }

  /** What is due stays due, and only grows, until it is settled. */
  lemma {:induction false} DueUntilSettled(history: seq<Served>, events: seq<Served>, w: Watcher)
    requires Owed(history, w).Due? && !Settled(events, w)
    ensures var due := Owed(history + events, w); due.Due? && Owed(history, w).events <= due.events
    decreases |events|
  {
    if events == [] {
      assert history + [] == history;
    } else {
      var n := |events| - 1;
      var e := events[n];
      assert events == events[..n] + [e];
      SettledSnoc(events[..n], e, w);
      DueUntilSettled(history, events[..n], w);
      OwedSnoc(history + events[..n], e, w);
      assert history + events == history + events[..n] + [e];
    }
    hide Settled;
  }

  // ---------- the queues in the loop ----------

  class PendingQueues {
    var queues: seq<seq<Slot>>
    var pendingpri: nat
    const dummy: Watcher
    ghost const ws: set<Watcher>
    ghost var history: seq<Served>

    ghost function View(): State
      reads this`queues, this`history, ws`pending
    {
      State(queues, map w | w in ws :: w.pending, history)
    }

    ghost predicate Valid()
      reads this`queues, this`history, ws`pending
    {
      Good(View(), dummy)
    }

    constructor (ghost ws: set<Watcher>)
      requires forall w | w in ws :: w.pending == 0 && MINPRI <= w.priority <= MAXPRI
      ensures Valid() && this.ws == ws && history == [] && fresh(dummy)
      ensures forall p: nat | p < NUMPRI :: queues[p] == []
    {
      queues, pendingpri, history := seq(NUMPRI, _ => []), 0, [];
      this.ws := ws;
      dummy := new Watcher(0, 0.0, 0.0);
    }

    /** ev_feed_event. */
    method FeedEvent(w: Watcher, revents: Events)
      requires Valid() && w in ws
      modifies this, w`pending
      ensures Valid() && View() == Feed(old(View()), w, revents)
      ensures pendingpri == NUMPRI - 1
    {
      ghost var before := View();
      FeedIsGood(before, dummy, w, revents);
      hide Good, WellServed;
      assert OwnsSlot(before, w) && Shaped(before) by { GoodOwns(before, dummy, w); }
      var pri := Pri(w);
      var q := queues[pri];
      if w.pending != 0 {
        queues := queues[pri := q[w.pending-1 := q[w.pending-1].(events := q[w.pending-1].events + revents)]];
      } else {
        w.pending := |q| + 1;
        queues := queues[pri := q + [Slot(w, revents)]];
      }
      pendingpri := NUMPRI - 1;
      history := history + [Fed(w, revents)];
      assert View().pending == Feed(before, w, revents).pending;
    }

    /** clear_pending: the slot stays, but it is now the dummy's. */
    method ClearPending(w: Watcher)
      requires Valid() && w in ws
      modifies this, w`pending
      ensures Valid() && View() == Clear(old(View()), dummy, w)
      ensures pendingpri == old(pendingpri)
    {
      ghost var before := View();
      ClearIsGood(before, dummy, w);
      hide Good, WellServed;
      assert OwnsSlot(before, w) && Shaped(before) by { GoodOwns(before, dummy, w); }
      if w.pending != 0 {
        var q := queues[Pri(w)];
        queues := queues[Pri(w) := q[w.pending-1 := q[w.pending-1].(w := dummy)]];
        w.pending := 0;
      }
      history := history + [Cleared(w)];
      assert View().pending == Clear(before, dummy, w).pending;
    }

    /** The head of the inner loop of ev_invoke_pending: takes the last slot of queue p. */
    method PopSlot(p: nat) returns (slot: Slot)
      requires Valid() && p < NUMPRI && queues[p] != []
      requires forall q: nat | p < q < NUMPRI :: queues[q] == []
      modifies this`queues, this`history, ws`pending, dummy`pending
      ensures Valid() && View() == Pop(old(View()), dummy, p)
      ensures slot == old(queues)[p][|old(queues)[p]|-1]
      ensures queues == old(queues)[p := old(queues)[p][..|old(queues)[p]|-1]]
    {
      ghost var before := View();
      PopIsGood(before, dummy, p);
      GoodPops(before, dummy, p);
      hide Good, Pop;
      var q := queues[p];
      slot := q[|q|-1];
      queues := queues[p := q[..|q|-1]];
      slot.w.pending := 0;
      if slot.w != dummy {
        history := history + [Delivered(slot.w, slot.events)];
      }
      PopIs(before, dummy, p);
      assert View().pending == if slot.w == dummy then before.pending else before.pending[slot.w := 0];
    }

    /** A callback: it feeds and clears watchers. */
    method RunCallback(ops: seq<Op>, ghost s0: State)
      requires ServesInOrder(s0, View())
      requires Valid() && forall i | 0 <= i < |ops| :: ops[i].w in ws
      requires pendingpri < NUMPRI && forall q: nat | pendingpri < q < NUMPRI :: queues[q] == []
      modifies this, ws`pending
      ensures Valid() && old(history) <= history && ServesInOrder(s0, View())
      ensures pendingpri < NUMPRI && forall q: nat | pendingpri < q < NUMPRI :: queues[q] == []
    {
      hide Good, ServesInOrder;
      GoodShape(View(), dummy);
      for i := 0 to |ops|
        invariant Valid() && old(history) <= history && ServesInOrder(s0, View())
        invariant pendingpri < NUMPRI && |queues| == NUMPRI
        invariant forall q: nat | pendingpri < q < NUMPRI :: queues[q] == []
      {
        ghost var before := View();
        GoodOwns(before, dummy, ops[i].w);
        AllOwn(before, dummy);
        if ops[i].FeedOp? {
          FeedInOrder(s0, before, ops[i].w, ops[i].events);
          FeedEvent(ops[i].w, ops[i].events);
        } else {
          ClearInOrder(s0, before, dummy, ops[i].w);
          ClearPending(ops[i].w);
        }
      }
    }

    /** The body of the inner loop of ev_invoke_pending; the script says what each callback
        does, and later ones do nothing. */
    method InvokeOne(script: seq<seq<Op>>, calls: nat, ghost s0: State) returns (called: nat)
      requires Valid() && calls <= |script| && ServesInOrder(s0, View())
      requires forall i, j | 0 <= i < |script| && 0 <= j < |script[i]| :: script[i][j].w in ws
      requires pendingpri < NUMPRI == |queues| && queues[pendingpri] != []
      requires forall q: nat | pendingpri < q < NUMPRI :: queues[q] == []
      modifies this, ws`pending, dummy`pending
      ensures Valid() && old(history) <= history && ServesInOrder(s0, View())
      ensures pendingpri < NUMPRI == |queues| && forall q: nat | pendingpri < q < NUMPRI :: queues[q] == []
      ensures calls <= called <= |script|
      ensures called == calls ==>
                && pendingpri == old(pendingpri) && Slots(queues) < Slots(old(queues))
                && (script == [] ==> history + Drained(queues, dummy, pendingpri + 1) ==
                                     old(history) + Drained(old(queues), dummy, pendingpri + 1))
    {
      hide Good, Slots, Drained, ServesInOrder;
      ghost var q := queues[pendingpri];
      SlotsUpdate(queues, pendingpri, q[..|q|-1]);
      DrainedPop(queues, dummy, pendingpri);
      GoodHistory(View(), dummy, pendingpri);
      GoodIsLinked(View(), dummy);
      PopInOrder(s0, View(), dummy, pendingpri);
      called := calls;
      var slot := PopSlot(pendingpri);
      if slot.w != dummy && calls < |script| {
        RunCallback(script[calls], s0);
        GoodShape(View(), dummy);
        called := calls + 1;
      }
    }

    /** The inner loop of ev_invoke_pending. */
    method InvokeTop(script: seq<seq<Op>>, calls: nat, ghost s0: State) returns (called: nat)
      requires Valid() && calls <= |script| && ServesInOrder(s0, View())
      requires forall i, j | 0 <= i < |script| && 0 <= j < |script[i]| :: script[i][j].w in ws
      requires pendingpri < NUMPRI == |queues| && forall q: nat | pendingpri < q < NUMPRI :: queues[q] == []
      modifies this, ws`pending, dummy`pending
      ensures Valid() && old(history) <= history && calls <= called <= |script| && ServesInOrder(s0, View())
      ensures pendingpri < NUMPRI == |queues| && forall q: nat | pendingpri <= q < NUMPRI :: queues[q] == []
      ensures called == calls ==> pendingpri == old(pendingpri) && Slots(queues) <= Slots(old(queues))
      ensures script == [] ==> history + Drained(queues, dummy, pendingpri) ==
                               old(history) + Drained(old(queues), dummy, old(pendingpri) + 1)
    {
      hide Good, Slots, Drained, ServesInOrder;
      called := calls;
      while queues[pendingpri] != []
        invariant ServesInOrder(s0, View())
        invariant Valid() && old(history) <= history && pendingpri < NUMPRI == |queues| && calls <= called <= |script|
        invariant forall q: nat | pendingpri < q < NUMPRI :: queues[q] == []
        invariant called == calls ==> pendingpri == old(pendingpri) && Slots(queues) <= Slots(old(queues))
        invariant script == [] ==> history + Drained(queues, dummy, pendingpri + 1) ==
                                   old(history) + Drained(old(queues), dummy, old(pendingpri) + 1)
        decreases |script| - called, Slots(queues)
      {
        called := InvokeOne(script, called, s0);
      }
      DrainedEmpty(queues, dummy, pendingpri);
    }

    /** ev_invoke_pending. It always ends, with all queues empty; that every delivery was due,
        exactly so, and in the order of priority is part of Valid. Of two watchers of one priority
        the one nearer to the top is served first, whatever the callbacks do. */
    method InvokePending(script: seq<seq<Op>>)
      requires Valid()
      requires forall i, j | 0 <= i < |script| && 0 <= j < |script[i]| :: script[i][j].w in ws
      modifies this, ws`pending, dummy`pending
      ensures Valid() && ServesInOrder(old(View()), View()) && WellServed(history, ws)
      ensures |queues| == NUMPRI && forall q: nat | q < NUMPRI :: queues[q] == []
      ensures script == [] ==> history == old(history) + Drained(old(queues), dummy, NUMPRI)
    {
      hide Good, Slots, Drained, ServesInOrder, WellServed;
      ghost var s0 := View();
      InOrderStart(s0);
      GoodShape(View(), dummy);
      pendingpri := NUMPRI;
      var calls := 0;
      while pendingpri != 0
        invariant ServesInOrder(s0, View())
        invariant Valid() && old(history) <= history && pendingpri <= NUMPRI == |queues| && calls <= |script|
        invariant forall q: nat | pendingpri <= q < NUMPRI :: queues[q] == []
        invariant script == [] ==>
                    history + Drained(queues, dummy, pendingpri) == old(history) + Drained(old(queues), dummy, NUMPRI)
        decreases |script| - calls, Slots(queues), pendingpri
      {
        pendingpri := pendingpri - 1;
        calls := InvokeTop(script, calls, s0);
      }
      DrainedNone(queues, dummy);
      GoodServes(View(), dummy);
      assert View().pending.Keys == ws;
    }
  }

  lemma GoodServes(s: State, dummy: Watcher)
    requires Good(s, dummy)
    ensures WellServed(s.history, s.pending.Keys)
  {
  }

  lemma GoodHistory(s: State, dummy: Watcher, p: nat)
    requires Good(s, dummy) && p < NUMPRI && s.queues[p] != []
    ensures var slot := s.queues[p][|s.queues[p]|-1];
            Pop(s, dummy, p).history ==
              s.history + if slot.w == dummy then [] else [Delivered(slot.w, slot.events)]
  {
  }

  lemma GoodIsLinked(s: State, dummy: Watcher)
    requires Good(s, dummy)
    ensures Linked(s, dummy)
  {
  }

  lemma GoodShape(s: State, dummy: Watcher)
    requires Good(s, dummy)
    ensures |s.queues| == NUMPRI
  {
  }

  /** The deliveries of a queue that nobody adds to: from its last slot to its first. */
  function Emptied(q: seq<Slot>, dummy: Watcher): seq<Served> {
    if q == [] then []
    else
      var slot := q[|q|-1];
      (if slot.w == dummy then [] else [Delivered(slot.w, slot.events)]) + Emptied(q[..|q|-1], dummy)
  }

  /** The deliveries of the queues below p, highest priority first. */
  function Drained(queues: seq<seq<Slot>>, dummy: Watcher, p: nat): seq<Served>
    requires p <= |queues|
  {
    if p == 0 then [] else Emptied(queues[p-1], dummy) + Drained(queues, dummy, p - 1)
  }

  lemma {:induction false} DrainedBelow(queues: seq<seq<Slot>>, others: seq<seq<Slot>>, dummy: Watcher, p: nat)
    requires p <= |queues| && p <= |others| && queues[..p] == others[..p]
    ensures Drained(queues, dummy, p) == Drained(others, dummy, p)
    decreases p
  {
    if p > 0 {
      assert queues[p-1] == queues[..p][p-1] && others[p-1] == others[..p][p-1];
      assert queues[..p-1] == queues[..p][..p-1] && others[..p-1] == others[..p][..p-1];
      DrainedBelow(queues, others, dummy, p - 1);
    }
  }

  lemma DrainedNone(queues: seq<seq<Slot>>, dummy: Watcher)
    ensures Drained(queues, dummy, 0) == []
  {
  }

  lemma DrainedEmpty(queues: seq<seq<Slot>>, dummy: Watcher, p: nat)
    requires p < |queues| && queues[p] == []
    ensures Drained(queues, dummy, p + 1) == Drained(queues, dummy, p)
  {
  }

  lemma DrainedPop(queues: seq<seq<Slot>>, dummy: Watcher, p: nat)
    requires p < |queues| && queues[p] != []
    ensures var q := queues[p];
            var slot := q[|q|-1];
            Drained(queues, dummy, p + 1) ==
              (if slot.w == dummy then [] else [Delivered(slot.w, slot.events)]) +
              Drained(queues[p := q[..|q|-1]], dummy, p + 1)
  {
    DrainedBelow(queues, queues[p := queues[p][..|queues[p]|-1]], dummy, p);
  }

  lemma GoodOwns(s: State, dummy: Watcher, w: Watcher)
    requires Good(s, dummy) && w in s.pending
    ensures Shaped(s) && OwnsSlot(s, w)
  {
  }

  lemma AllOwn(s: State, dummy: Watcher)
    requires Good(s, dummy)
    ensures Shaped(s) && forall w | w in s.pending :: OwnsSlot(s, w)
  {
  }

  lemma GoodPops(s: State, dummy: Watcher, p: nat)
    requires Good(s, dummy) && p < NUMPRI && s.queues[p] != []
    ensures var slot := s.queues[p][|s.queues[p]|-1]; slot.w != dummy ==> slot.w in s.pending
    ensures dummy !in s.pending && Shaped(s)
  {
    PopLinks(s, dummy, p);
  }

  lemma PopIs(s: State, dummy: Watcher, p: nat)
    requires Shaped(s) && p < NUMPRI && s.queues[p] != []
    ensures var q := s.queues[p];
            var slot, queues := q[|q|-1], s.queues[p := q[..|q|-1]];
            Pop(s, dummy, p) ==
              if slot.w == dummy then State(queues, s.pending, s.history)
              else State(queues, s.pending[slot.w := 0], s.history + [Delivered(slot.w, slot.events)])
  {
  }
}

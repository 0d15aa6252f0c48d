/** The timers of an event loop: starting, stopping, and what happens when they expire. */
module EvLoop {
  import opened Common
  import opened EvWatcher
  import opened EvHeap
  import opened EvTimers
  import opened EvPending
  import opened EvReify

  /** The time at which a repeating timer expires next: no catching up on what was missed. */
  function Renewed(at: real, repeat: real, now: real): real {
    if at + repeat < now then now else at + repeat
  }

  function EntryAt(w: Watcher, at: real): Anhe<Watcher?> { Anhe(w, at) }

  function EntryOf(w: Watcher): Anhe<Watcher?>
    reads w`at
  {
    Anhe(w, w.at)
  }

  const MIN_TIMEJUMP: real := 1.0

  // ---------- the timers as a value ----------

  datatype Timers = Timers(at: map<Watcher, real>, repeat: map<Watcher, real>, active: set<Watcher>)

  ghost function SetTimer(s: Timers, w: Watcher, at: real): Timers {
    s.(at := s.at[w := at], active := s.active + {w})
  }

  ghost function Unset(s: Timers, w: Watcher, at: real): Timers {
    s.(at := s.at[w := at], active := s.active - {w})
  }

  ghost function ShiftAll(s: Timers, adjust: real): Timers {
    s.(at := map w | w in s.at :: if w in s.active then s.at[w] + adjust else s.at[w])
  }

  predicate Shape(s: Timers, ws: set<Watcher>) {
    s.at.Keys == ws && s.repeat.Keys == ws && s.active <= ws
  }

  ghost predicate RepeatsOf(s: Timers) {
    forall w | w in s.active && w in s.repeat :: s.repeat[w] >= 0.0
  }

  lemma RepeatsKept(s: Timers, w: Watcher)
    requires RepeatsOf(s) && w in s.repeat
    ensures forall at :: RepeatsOf(Unset(s, w, at))
    ensures w in s.active ==> s.repeat[w] >= 0.0
    ensures s.repeat[w] >= 0.0 ==> forall at :: RepeatsOf(SetTimer(s, w, at))
  {
  }

  lemma RepeatsShift(s: Timers, adjust: real)
    requires RepeatsOf(s)
    ensures RepeatsOf(ShiftAll(s, adjust))
  {
  }

  /** The active timers that have expired. */
  ghost function DueSet(s: Timers, now: real): set<Watcher>
    requires s.active <= s.at.Keys
  {
    set w | w in s.active && s.at[w] < now
  }

  ghost predicate IsFirst(s: Timers, w: Watcher)
    requires s.active <= s.at.Keys
  {
    w in s.active && forall v | v in s.active :: s.at[w] <= s.at[v]
  }

  /** What happens to a timer that has expired. */
  ghost function Expire(s: Timers, w: Watcher, now: real): Timers
    requires w in s.at && w in s.repeat
  {
    if s.repeat[w] != 0.0 then SetTimer(s, w, Renewed(s.at[w], s.repeat[w], now))
    else Unset(s, w, s.at[w] - now)
  }

  ghost function Oneshots(s: Timers): set<Watcher> {
    set w | w in s.repeat && s.repeat[w] == 0.0
  }

  /** The timers in order have been dealt with: they had expired, the one that expired first
      comes first, and they are renewed or stopped. The others are as before. */
  ghost predicate DealtWith(order: seq<Watcher>, s0: Timers, s: Timers, now: real) {
    && s0.active <= s0.at.Keys == s0.repeat.Keys && Shape(s, s0.at.Keys) && s.repeat == s0.repeat && NoDups(order)
    && (forall w | w in order :: w in s0.active && s0.at[w] < now && Handled(w, s0, s, now))
    && (forall w | w in s0.at && w !in order :: s.at[w] == s0.at[w] && (w in s.active <==> w in s0.active))
    && (forall i, j | 0 <= i < j < |order| :: s0.at[order[i]] <= s0.at[order[j]])
    && (forall i, w | 0 <= i < |order| && w in s0.active && w !in order :: s0.at[order[i]] <= s0.at[w])
  }

  /** The timer has been renewed if it repeats and stopped if it does not: it is next due one
      interval after it was, but not before now; or it keeps the time left, which is negative. */
  ghost predicate Handled(w: Watcher, s0: Timers, s: Timers, now: real)
    requires w in s0.at && w in s0.repeat && w in s.at
  {
    var next := s0.at[w] + s0.repeat[w];
    && (w in s.active <==> s0.repeat[w] != 0.0)
    && (s0.repeat[w] != 0.0 && next >= now ==> s.at[w] == next)
    && (s0.repeat[w] != 0.0 && next < now ==> s.at[w] == now)
    && (s0.repeat[w] == 0.0 ==> s.at[w] + now == s0.at[w])
  }

  lemma NothingDealtWith(s: Timers, now: real)
    requires Shape(s, s.at.Keys)
    ensures DealtWith([], s, s, now)
  {
  }

  lemma ExpireLowersDue(s: Timers, w: Watcher, now: real)
    requires s.active <= s.at.Keys && w in s.active && w in s.repeat && s.at[w] < now
    ensures w in DueSet(s, now) && DueSet(Expire(s, w, now), now) == DueSet(s, now) - {w}
  {
  }

  lemma DealWith(order: seq<Watcher>, s0: Timers, s: Timers, w: Watcher, now: real)
    requires DealtWith(order, s0, s, now) && IsFirst(s, w) && s.at[w] < now
    ensures DealtWith(order + [w], s0, Expire(s, w, now), now)
    ensures DueSet(Expire(s, w, now), now) == DueSet(s, now) - {w} && w in DueSet(s, now)
  {
    ExpireLowersDue(s, w, now);
    hide DueSet;
    assert w !in order;
    var t, after := Expire(s, w, now), order + [w];
    forall v | v in after ensures v in s0.active && s0.at[v] < now && Handled(v, s0, t, now) {
      assert v in order ==> Handled(v, s0, s, now);
    }
  }

  /** Exactly the timers that had expired are dealt with. */
  lemma ExactlyTheExpired(order: seq<Watcher>, s0: Timers, s: Timers, now: real)
    requires DealtWith(order, s0, s, now) && DueSet(s, now) == {}
    ensures (set w | w in order) == DueSet(s0, now)
    ensures forall w | w in s.active :: s.at[w] >= now
    ensures s.active == s0.active - (DueSet(s0, now) * Oneshots(s0))
  {
    forall w | w in DueSet(s0, now) ensures w in order {
      assert w !in DueSet(s, now);
    }
    forall w | w in s.active ensures s.at[w] >= now {
      assert w !in DueSet(s, now);
    }
    forall w | w in order ensures Handled(w, s0, s, now) {
    }
  }

  /** No drift. As long as no turn of the loop comes later than the timer is due next, the n-th time
      it is due is n intervals after the first. */
  lemma {:induction false} NoDrift(w: Watcher, states: seq<Timers>, orders: seq<seq<Watcher>>, nows: seq<real>)
    requires |states| == |orders| + 1 == |nows| + 1
    requires w in states[0].at && w in states[0].repeat && states[0].repeat[w] != 0.0
    requires forall i: nat | i < |orders| :: DealtWith(orders[i], states[i], states[i+1], nows[i]) && w in orders[i]
    requires forall i: nat | i < |nows| :: nows[i] <= states[0].at[w] + (i + 1) as real * states[0].repeat[w]
    ensures var s := states[|orders|];
            && w in s.at && s.repeat == states[0].repeat
            && s.at[w] == states[0].at[w] + |orders| as real * states[0].repeat[w]
    decreases |orders|
  {
    hide DealtWith;
    if orders != [] {
      var n := |orders| - 1;
      NoDrift(w, states[..n+1], orders[..n], nows[..n]);
      OneTurn(w, orders[n], states[n], states[n+1], nows[n]);
      OneMore(n, states[0].repeat[w]);
    }
  }

  lemma OneTurn(w: Watcher, order: seq<Watcher>, s0: Timers, s: Timers, now: real)
    requires DealtWith(order, s0, s, now) && w in order && w in s0.repeat && s0.repeat[w] != 0.0
    ensures w in s0.at && w in s.at && s.repeat == s0.repeat
    ensures s.at[w] == if s0.at[w] + s0.repeat[w] >= now then s0.at[w] + s0.repeat[w] else now
  {
    assert Handled(w, s0, s, now);
  }

  lemma OneMore(n: nat, x: real)
    ensures (n + 1) as real * x == n as real * x + x
  {
  }

  /** At each priority the timers that had expired are called once each, and in the order of the
      times at which they had expired. */
  lemma CalledInOrderOfExpiry(order: seq<Watcher>, s0: Timers, s: Timers, now: real, priority: int)
    requires DealtWith(order, s0, s, now) && DueSet(s, now) == {}
    ensures var d := Deliveries(order, priority - MINPRI, EV_TIMER);
            && Timely(d, s0.at)
            && (forall e | e in d :: e.Delivered? && e.w in DueSet(s0, now))
            && (forall w | w in DueSet(s0, now) && w.priority == priority :: Delivered(w, {EV_TIMER}) in d)
  {
    DeliveriesInOrder(order, priority - MINPRI, EV_TIMER, s0.at);
    DeliveriesAreFrom(order, priority - MINPRI, EV_TIMER);
    ExactlyTheExpired(order, s0, s, now);
    forall w | w in DueSet(s0, now) && w.priority == priority
      ensures Delivered(w, {EV_TIMER}) in Deliveries(order, priority - MINPRI, EV_TIMER)
    {
      assert w in (set v | v in order);
      DeliveriesReach(order, priority - MINPRI, EV_TIMER, w);
    }
  }

  /** The timers that had expired were delivered to, unless they were cleared, in the order of the
      times at which they had expired. */
  ghost predicate ServedAsExpired(events: seq<Served>, s: Timers, now: real)
    requires s.active <= s.at.Keys
  {
    && (forall u | u in DueSet(s, now) :: Settled(events, u))
    && (forall u, v | u in DueSet(s, now) && v in DueSet(s, now) && u.priority == v.priority && s.at[u] < s.at[v] ::
          FirstServed(events, u, v))
  }

  lemma ExpiryOrder(events: seq<Served>, order: seq<Watcher>, before: State, s0: Timers, s: Timers, now: real)
    requires BatchServed(events, order, EV_TIMER, before) && DealtWith(order, s0, s, now) && DueSet(s, now) == {}
    ensures ServedAsExpired(events, s0, now)
  {
    hide FirstServed, Settled;
    ExactlyTheExpired(order, s0, s, now);
    forall u | u in DueSet(s0, now) ensures u in order {
      assert u in (set w | w in order);
    }
    forall u, v | u in DueSet(s0, now) && v in DueSet(s0, now) && u.priority == v.priority && s0.at[u] < s0.at[v]
      ensures FirstServed(events, u, v)
    {
      var i: nat :| i < |order| && order[i] == u;
      var j: nat :| j < |order| && order[j] == v;
      assert i < j;
    }
  }

  lemma HistoryGrows(s0: State, s: State)
    requires ServesInOrder(s0, s)
    ensures s0.history <= s.history && s.history == s0.history + s.history[|s0.history|..]
  {
  }

  lemma SetTwice(s: Timers, w: Watcher, first: real, at: real)
    ensures SetTimer(s.(at := s.at[w := first]), w, at) == SetTimer(s, w, at)
  {
    assert s.at[w := first][w := at] == s.at[w := at];
  }

  class Loop {
    var timers: array<Anhe<Watcher?>>
    var timercnt: nat
    var activecnt: int
    var now: real
    const pending: PendingQueues
    ghost const ws: set<Watcher>

    /** The active timers and the times at which they expire. */
    ghost function Armed(): set<Anhe<Watcher?>>
      reads ws`active, ws`at
    {
      set w | w in ws && w.active != 0 :: EntryOf(w)
    }

    ghost function View(): Timers
      reads ws`active, ws`at, ws`repeat
    {
      Timers(map w | w in ws :: w.at, map w | w in ws :: w.repeat, set w | w in ws && w.active != 0)
    }

    /** The heap order, and that the watchers in the heap know their slots. */
    ghost predicate HeapShape()
      requires HEAP0 + timercnt <= timers.Length
      reads this`timers, this`timercnt, timers, Members(timers[..], timercnt)`active
    {
      && Distinct(timers[..], timercnt)
      && Indexed(timers[..], timercnt)
      && Heap(timers[..], timercnt)
    }

    ghost function Entries(): set<Anhe<Watcher?>>
      requires HEAP0 + timercnt <= timers.Length
      reads this`timers, this`timercnt, timers
    {
      EntrySet(timers[..], timercnt)
    }

    /** The assertions of ev_verify about the timer heap; and the heap holds exactly the active
        timers. */
    ghost predicate HeapValid()
      reads this`timers, this`timercnt, timers, ws`active, ws`at
    {
      && HEAP0 + timercnt <= timers.Length
      && Members(timers[..], timercnt) <= ws
      && HeapShape()
      && Entries() == Armed()
    }

    ghost predicate Repeats()
      reads ws`active, ws`at, ws`repeat
    {
      RepeatsOf(View())
    }

    ghost predicate Valid()
      reads this`timers, this`timercnt, timers, ws`active, ws`at, ws`repeat, ws`pending, pending`queues, pending`history
    {
      && pending.ws == ws && pending.dummy !in ws && pending.Valid()
      && HeapValid() && Repeats()
    }

    constructor (ghost ws: set<Watcher>, now: real)
      requires forall w | w in ws :: w.active == 0 && w.pending == 0 && MINPRI <= w.priority <= MAXPRI
      ensures Valid() && Armed() == {} && this.ws == ws && this.now == now && activecnt == 0
      ensures fresh(timers) && fresh(pending) && pending.history == []
    {
      this.ws, this.now, timercnt, activecnt := ws, now, 0, 0;
      timers := new Anhe<Watcher?>[HEAP0](_ => Anhe(null, 0.0));
      pending := new PendingQueues(ws);
    }

    /** array_needsize. */
    method Grow(cnt: nat)
      requires HEAP0 + timercnt <= timers.Length
      modifies this`timers
      ensures timers == old(timers) || fresh(timers)
      ensures cnt <= timers.Length && HEAP0 + timercnt <= timers.Length
      ensures forall i: nat | i < HEAP0 + timercnt :: timers[i] == old(timers[i])
    {
      if cnt > timers.Length {
        var had := timers;
        var more := new Anhe<Watcher?>[2 * cnt](_ => Anhe(null, 0.0));
        for i := 0 to had.Length
          invariant forall j: nat | j < i :: more[j] == had[j]
        {
          more[i] := had[i];
        }
        timers := more;
      }
    }

    /** The second half of ev_timer_start. */
    method Insert(w: Watcher)
      requires HEAP0 + timercnt <= timers.Length && HeapShape() && w !in Members(timers[..], timercnt)
      modifies this`timers, this`timercnt, timers, Members(timers[..], timercnt)`active, w`active
      ensures HEAP0 + timercnt <= timers.Length && HeapShape() && (timers == old(timers) || fresh(timers))
      ensures Entries() == old(Entries()) + {EntryOf(w)}
    {
      hide Heap, EntrySet, UpHeap;
      ghost var s, n := timers[..], timercnt;
      Grow(HEAP0 + timercnt + 1);
      timercnt := timercnt + 1;
      w.active := timercnt + HEAP0 - 1;
      timers[w.active] := Anhe(w, w.at);
      ghost var t := timers[..];
      assert forall i: nat | HEAP0 <= i < HEAP0 + n :: s[i] == t[i];
      AddEntry(s, t, n);
      AppendEntry(s, t, n);
      UpHeapInPlace(timers, timercnt, w.active);
    }

    /** The watchers in the heap are the active ones. */
    lemma MembersAreActive()
      requires HeapValid()
      ensures forall w | w in ws :: w.active != 0 <==> w in Members(timers[..], timercnt)
      ensures forall w | w in ws && w.active != 0 ::
                HEAP0 <= w.active < HEAP0 + timercnt && timers[w.active] == EntryOf(w)
    {
      var s := timers[..];
      forall w | w in ws
        ensures w.active != 0 <==> w in Members(s, timercnt)
        ensures w.active != 0 ==> HEAP0 <= w.active < HEAP0 + timercnt && timers[w.active] == EntryOf(w)
      {
        if w.active != 0 {
          assert EntryOf(w) in EntrySet(s, timercnt);
          var i: nat :| HEAP0 <= i < HEAP0 + timercnt && s[i] == EntryOf(w);
          assert s[i].w.active == i;
        }
      }
    }

    /** A heap that knows its members and their times is that of the active timers. */
    lemma HeapIsArmed()
      requires HEAP0 + timercnt <= timers.Length
      requires HeapShape()
      requires forall e | e in Entries() :: e.w != null && e.w in ws && e.at == e.w.at
      requires forall w | w in ws && w.active != 0 :: EntryOf(w) in Entries()
      ensures HeapValid()
    {
      var s := timers[..];
      forall w | w in Members(s, timercnt) ensures w in ws {
        var i: nat :| HEAP0 <= i < HEAP0 + timercnt && s[i].w == w;
        assert s[i] in EntrySet(s, timercnt);
      }
      forall e | e in EntrySet(s, timercnt) ensures e in Armed() {
        var i: nat :| HEAP0 <= i < HEAP0 + timercnt && s[i] == e;
        assert s[i].w.active == i;
      }
    }

    twostate lemma TimerSet(w: Watcher)
      requires w in ws && w.active != 0
      requires forall v | v in ws :: v.repeat == old(v.repeat)
      requires forall v | v in ws && v != w :: v.at == old(v.at) && (v.active != 0 <==> old(v.active) != 0)
      ensures View() == SetTimer(old(View()), w, w.at)
    {
      assert View().at == old(View()).at[w := w.at];
      assert View().repeat == old(View()).repeat;
      assert View().active == old(View()).active + {w};
    }

    twostate lemma TimerUnset(w: Watcher)
      requires w in ws && w.active == 0
      requires forall v | v in ws :: v.repeat == old(v.repeat)
      requires forall v | v in ws && v != w :: v.at == old(v.at) && (v.active != 0 <==> old(v.active) != 0)
      ensures View() == Unset(old(View()), w, w.at)
    {
      assert View().at == old(View()).at[w := w.at];
      assert View().repeat == old(View()).repeat;
      assert View().active == old(View()).active - {w};
    }

    /** The time of an inactive timer is of no concern to the heap. */
    twostate lemma HeapIgnoresInactive(w: Watcher)
      requires w in ws && w.active == 0 && old(HeapValid())
      requires unchanged(this) && unchanged(timers) && unchanged(ws`active)
      requires forall v | v in ws && v != w :: v.at == old(v.at)
      ensures HeapValid()
    {
      assert forall v | v in ws && v.active != 0 :: EntryOf(v) == old(EntryOf(v));
      assert Armed() == old(Armed());
    }

    /** The part of ev_timer_start that an inactive timer goes through. */
    method Arm(w: Watcher)
      requires HeapValid() && w in ws && w.active == 0
      modifies this`timers, this`timercnt, this`activecnt, timers, ws`active, w`at
      ensures HeapValid() && (timers == old(timers) || fresh(timers))
      ensures View() == SetTimer(old(View()), w, old(w.at) + now) && activecnt == old(activecnt) + 1
    {
      hide Distinct, EntrySet, Heap, View;
      MembersAreActive();
      w.at := w.at + now;
      activecnt := activecnt + 1;
      Insert(w);
      HeapIsArmed();
      assert forall v | v in ws && (v == w || old(v.active) != 0) :: EntryOf(v) in Armed();
      TimerSet(w);
    }

    /** ev_timer_start: the timer counts its time from now on. */
    method TimerStart(w: Watcher)
      requires Valid() && w in ws && (w.active == 0 ==> w.repeat >= 0.0)
      modifies this`timers, this`timercnt, this`activecnt, timers, ws`active, w`at
      ensures Valid() && (timers == old(timers) || fresh(timers)) 
      ensures View() == if old(w.active) != 0 then old(View()) else SetTimer(old(View()), w, old(w.at) + now)
      ensures activecnt == old(activecnt) + (if old(w.active) != 0 then 0 else 1)
    {
      hide Good, Distinct, EntrySet, Heap, Members, Indexed;
      RepeatsKept(View(), w);
      if w.active == 0 {
        Arm(w);
      }
    }

    /** The middle of ev_timer_stop. */
    method Remove(w: Watcher)
      requires HEAP0 + timercnt <= timers.Length && HeapShape()
      requires HEAP0 <= w.active < HEAP0 + timercnt && timers[w.active] == EntryOf(w)
      modifies this`timercnt, timers, Members(timers[..], timercnt)`active
      ensures timercnt == old(timercnt) - 1 && HEAP0 + timercnt <= timers.Length && HeapShape()
      ensures Entries() == old(Entries()) - {EntryOf(w)} && w !in Members(timers[..], timercnt)
    {
      hide Heap, EntrySet, AdjustHeap;
      ghost var s, n, active := timers[..], timercnt, w.active;
      RemoveEntry(s, n, active);
      DropEntry(s, s[active := s[HEAP0 + n - 1]], n, active);
      timercnt := timercnt - 1;
      if w.active < timercnt + HEAP0 {
        timers[w.active] := timers[timercnt + HEAP0];
        assert timers[..] == s[active := s[HEAP0 + n - 1]];
        AdjustHeapInPlace(timers, timercnt, w.active);
      }
    }

    /** The part of ev_timer_stop that an active timer goes through. */
    method Disarm(w: Watcher)
      requires HeapValid() && w in ws && w.active != 0
      modifies this`timercnt, this`activecnt, timers, ws`active, w`at
      ensures HeapValid() && View() == Unset(old(View()), w, old(w.at) - now) && activecnt == old(activecnt) - 1
    {
      hide Distinct, EntrySet, Heap, View;
      MembersAreActive();
      Remove(w);
      w.at := w.at - now;
      activecnt := activecnt - 1;
      w.active := 0;
      HeapIsArmed();
      assert forall v | v in ws && v != w && old(v.active) != 0 :: EntryOf(v) in Armed();
      TimerUnset(w);
    }

    lemma RepeatsUnset(w: Watcher)
      requires Repeats() && w in ws
      ensures RepeatsOf(Unset(View(), w, w.at - now))
    {
    }

    /** ev_timer_stop. */
    method TimerStop(w: Watcher)
      requires Valid() && w in ws
      modifies this`timercnt, this`activecnt, timers, ws`active, w`at, pending, w`pending
      ensures Valid() && pending.View() == Clear(old(pending.View()), pending.dummy, w)
      ensures View() == if old(w.active) == 0 then old(View()) else Unset(old(View()), w, old(w.at) - now)
      ensures activecnt == old(activecnt) - (if old(w.active) == 0 then 0 else 1)
    {
      hide Good, HeapValid, HeapShape, Armed, Clear, SetTimer, Unset, RepeatsOf, View, OwnsSlot, Shaped;
      hide PendingQueues.View, PendingQueues.Valid;
      RepeatsUnset(w);
      pending.ClearPending(w);
      if w.active != 0 {
        Disarm(w);
      }
    }

    /** Brings the heap up to date with the time of a timer. */
    method Refresh(w: Watcher)
      requires HEAP0 + timercnt <= timers.Length && HeapShape()
      requires HEAP0 <= w.active < HEAP0 + timercnt && timers[w.active].w == w
      modifies timers, Members(timers[..], timercnt)`active
      ensures HEAP0 + timercnt <= timers.Length && HeapShape()
      ensures Members(timers[..], timercnt) == old(Members(timers[..], timercnt))
      ensures Entries() == old(Entries()) - {EntryAt(w, old(timers[w.active].at))} + {EntryOf(w)}
    {
      hide Heap, EntrySet, AdjustHeap;
      ghost var s, k := timers[..], w.active;
      ghost var t := s[k := EntryOf(w)];
      ChangeEntry(s, t, timercnt, k, w.at);
      timers[w.active] := Anhe(w, w.at);
      assert timers[..] == t;
      SetEntryIndexed(s, t, timercnt, k);
      AdjustHeapInPlace(timers, timercnt, w.active);
    }

    /** Gives an active timer a new time. */
    method Rearm(w: Watcher, at: real)
      requires HeapValid() && w in ws && w.active != 0
      modifies timers, ws`active, w`at
      ensures HeapValid() && View() == SetTimer(old(View()), w, at)
    {
      hide Distinct, EntrySet, Heap, View;
      MembersAreActive();
      w.at := at;
      Refresh(w);
      HeapIsArmed();
      TimerSet(w);
    }

    /** The part of ev_timer_again that follows the call of clear_pending. */
    method Restart(w: Watcher)
      requires HeapValid() && w in ws
      modifies this`timers, this`timercnt, this`activecnt, timers, ws`active, w`at
      ensures HeapValid() && (timers == old(timers) || fresh(timers))
      ensures View() == if w.repeat != 0.0 then SetTimer(old(View()), w, now + w.repeat)
                        else if old(w.active) != 0 then Unset(old(View()), w, old(w.at) - now)
                        else old(View())
    {
      hide Distinct, EntrySet, Heap, Members, Indexed;
      if w.active != 0 {
        if w.repeat != 0.0 {
          Rearm(w, now + w.repeat);
        } else {
          Disarm(w);
        }
      } else if w.repeat != 0.0 {
        StartAnew(w);
      }
    }

    /** ev_timer_again of a timer that is not active. */
    method StartAnew(w: Watcher)
      requires HeapValid() && w in ws && w.active == 0
      modifies this`timers, this`timercnt, this`activecnt, timers, ws`active, w`at
      ensures HeapValid() && (timers == old(timers) || fresh(timers))
      ensures View() == SetTimer(old(View()), w, now + w.repeat)
    {
      hide HeapValid, View, SetTimer;
      w.at := w.repeat;
      HeapIgnoresInactive(w);
      TimeChanged(w);
      SetTwice(old(View()), w, w.repeat, w.repeat + now);
      Arm(w);
    }

    twostate lemma TimeChanged(w: Watcher)
      requires w in ws && unchanged(ws`active) && unchanged(ws`repeat)
      requires forall v | v in ws && v != w :: v.at == old(v.at)
      ensures View() == old(View()).(at := old(View()).at[w := w.at])
    {
      assert View().at == old(View()).at[w := w.at];
      assert View().repeat == old(View()).repeat && View().active == old(View()).active;
    }

    lemma RepeatsStay(w: Watcher)
      requires Repeats() && w in ws && (w.active == 0 ==> w.repeat >= 0.0)
      ensures RepeatsOf(SetTimer(View(), w, now + w.repeat)) && RepeatsOf(Unset(View(), w, w.at - now))
    {
    }

    /** ev_timer_again: the timer starts anew if it repeats, and stops otherwise. */
    method TimerAgain(w: Watcher)
      requires Valid() && w in ws && (w.active == 0 ==> w.repeat >= 0.0)
      modifies this`timers, this`timercnt, this`activecnt, timers, ws`active, w`at, pending, w`pending
      ensures Valid() && pending.View() == Clear(old(pending.View()), pending.dummy, w)
      ensures timers == old(timers) || fresh(timers)
      ensures View() == if w.repeat != 0.0 then SetTimer(old(View()), w, now + w.repeat)
                        else if old(w.active) != 0 then Unset(old(View()), w, old(w.at) - now)
                        else old(View())
    {
      hide Good, HeapValid, HeapShape, Armed, Clear, SetTimer, Unset, RepeatsOf, View, OwnsSlot, Shaped;
      hide PendingQueues.View, PendingQueues.Valid;
      RepeatsStay(w);
      pending.ClearPending(w);
      Restart(w);
    }

    /** The loop body of timers_reify: the first timer is renewed or stopped. */
    method ReifyRoot() returns (w: Watcher)
      requires Valid() && timercnt > 0 && timers[HEAP0].at < now
      modifies this`timercnt, this`activecnt, timers, ws`active, ws`at, pending, ws`pending
      ensures Valid() && IsFirst(old(View()), w) && old(w.at) < now
      ensures View() == Expire(old(View()), w, now)
      ensures w.repeat != 0.0 ==>
                w.active != 0 && w.at == if old(w.at) + w.repeat >= now then old(w.at) + w.repeat else now
      ensures w.repeat == 0.0 ==> w.active == 0 && w.at == old(w.at) - now
      ensures pending.View() ==
                if w.repeat != 0.0 then old(pending.View()) else Clear(old(pending.View()), pending.dummy, w)
    {
      hide Good, EntrySet, Heap, Clear, Feed, Indexed, SetTimer, Unset, RepeatsOf;
      w := timers[HEAP0].w;
      FirstTimer(w);
      RepeatsKept(View(), w);
      if w.repeat != 0.0 {
        Rearm(w, Renewed(w.at, w.repeat, now));
      } else {
        TimerStop(w);
      }
      RootIsHandled(w);
    }

    twostate lemma RootIsHandled(w: Watcher)
      requires w in ws && w.repeat == old(w.repeat) && View() == Expire(old(View()), w, now)
      ensures w.repeat != 0.0 ==>
                w.active != 0 && w.at == if old(w.at) + w.repeat >= now then old(w.at) + w.repeat else now
      ensures w.repeat == 0.0 ==> w.active == 0 && w.at == old(w.at) - now
    {
      assert w.at == View().at[w] && (w.active != 0 <==> w in View().active);
    }

    /** The root of the heap is the timer that expires first. */
    lemma FirstTimer(w: Watcher)
      requires HeapValid() && timercnt > 0 && timers[HEAP0].w == w
      ensures w in ws && w.active != 0 && timers[HEAP0].at == w.at
      ensures forall v | v in ws && v.active != 0 :: w.at <= v.at
    {
      MembersAreActive();
      assert w in Members(timers[..], timercnt);
      forall v | v in ws && v.active != 0 ensures w.at <= v.at {
        RootIsFirst(timers[..], timercnt, v.active);
      }
    }

    lemma NothingDue(s0: Timers, order: seq<Watcher>)
      requires HeapValid() && (timercnt != 0 ==> timers[HEAP0].at >= now) && DealtWith(order, s0, View(), now)
      ensures DueSet(View(), now) == {} && Oneshots(View()) == Oneshots(s0)
    {
      if timercnt != 0 {
        FirstTimer(timers[HEAP0].w);
      } else {
        MembersAreActive();
      }
    }

    /** The first loop of timers_reify. */
    method ReifyAll() returns (order: seq<Watcher>)
      requires Valid()
      modifies this`timercnt, this`activecnt, timers, ws`active, ws`at, pending, ws`pending
      ensures Valid() && DealtWith(order, old(View()), View(), now) && DueSet(View(), now) == {}
      ensures pending.View() == ClearAll(old(pending.View()), pending.dummy, order, Oneshots(View()))
      ensures forall w | w in order :: w in ws
    {
      ghost var before := pending.View();
      GoodIsLinked(before, pending.dummy);
      hide Good, EntrySet, Heap, Clear, Feed, Linked, Distinct, Members, Indexed, DealtWith, DueSet, Expire;
      order := [];
      NothingDealtWith(View(), now);
      while timercnt != 0 && timers[HEAP0].at < now
        invariant Valid() && DealtWith(order, old(View()), View(), now) && forall w | w in order :: w in ws
        invariant pending.View() == ClearAll(before, pending.dummy, order, Oneshots(old(View())))
        decreases DueSet(View(), now)
      {
        ghost var s := View();
        var w := ReifyRoot();
        DealWith(order, old(View()), s, w, now);
        ClearAllSnoc(before, pending.dummy, order, w, Oneshots(old(View())));
        order := order + [w];
      }
      NothingDue(old(View()), order);
    }

    /** The effect of timers_reify on the pending queues: timers that do not repeat are stopped,
        which clears them, and then everyone is fed. */
    ghost predicate Queued(before: State, order: seq<Watcher>, oneshots: set<Watcher>, after: State) {
      && Linked(before, pending.dummy) && (forall w | w in order :: w in before.pending)
      && after == FeedReverse(ClearAll(before, pending.dummy, order, oneshots), pending.dummy, order, EV_TIMER)
    }

    /** timers_reify: every timer that has expired is fed EV_TIMER once, the last one first. */
    method TimersReify() returns (order: seq<Watcher>)
      requires Valid()
      modifies this`timercnt, this`activecnt, timers, ws`active, ws`at, pending, ws`pending
      ensures Valid() && DealtWith(order, old(View()), View(), now) && DueSet(View(), now) == {}
      ensures Queued(old(pending.View()), order, Oneshots(View()), pending.View())
    {
      hide Good, DealtWith, DueSet, Oneshots, Feed, HeapValid, RepeatsOf, Linked;
      GoodIsLinked(pending.View(), pending.dummy);
      order := ReifyAll();
      FeedReverseDone(pending, order, EV_TIMER);
    }

    lemma OrderIsKnown(order: seq<Watcher>, s0: Timers, s: Timers)
      requires DealtWith(order, s0, s, now)
      ensures NoDups(order) && forall w | w in order :: w in DueSet(s0, now)
    {
    }

    lemma NobodyDuePending()
      requires pending.ws == ws && forall w | w in DueSet(View(), now) :: w.pending == 0
      ensures forall w | w in DueSet(View(), now) :: w in pending.View().pending && pending.View().pending[w] == 0
    {
    }

    /** timers_reify followed by ev_invoke_pending, when no timer that had expired was pending
        already. Whatever the callbacks feed and clear, all timers that had expired are delivered
        to or cleared, in the order in which they had expired, and before the watchers of their
        priority that were pending. With callbacks that do nothing the deliveries are these: at
        every priority first the timers in their order, and then those that were pending. */
    method ExpireAndInvoke(script: seq<seq<Op>>) returns (order: seq<Watcher>, ghost events: seq<Served>)
      requires Valid() && forall w | w in DueSet(View(), now) :: w.pending == 0
      requires forall i, j | 0 <= i < |script| && 0 <= j < |script[i]| :: script[i][j].w in ws
      modifies this`timercnt, this`activecnt, timers, ws`active, ws`at, pending, ws`pending, pending.dummy`pending
      ensures Valid() && DealtWith(order, old(View()), View(), now) && DueSet(View(), now) == {}
      ensures |old(pending.queues)| == NUMPRI == |pending.queues|
      ensures WellServed(pending.history, ws) && forall p: nat | p < NUMPRI :: pending.queues[p] == []
      ensures pending.history ==
                old(pending.history) + Clears(order, Oneshots(View())) + Feeds(order, EV_TIMER) + events
      ensures BatchServed(events, order, EV_TIMER, old(pending.View())) && ServedAsExpired(events, old(View()), now)
      ensures script == [] ==> events == Schedule(order, EV_TIMER, old(pending.queues), pending.dummy, NUMPRI)
    {
      hide Good, DealtWith, HeapValid, RepeatsOf, Linked, FeedReverse, ClearAll, WellServed, BatchServed, ServesInOrder;
      hide Schedule, Clears, Feeds, Drained, Emptied, Oneshots, DueSet, ServedAsExpired;
      ghost var s0, p0 := View(), pending.View();
      NobodyDuePending();
      order := TimersReify();
      OrderIsKnown(order, s0, View());
      ghost var queued := pending.View();
      BatchIsServed(p0, pending.dummy, order, Oneshots(View()), EV_TIMER);
      pending.InvokePending(script);
      HistoryGrows(queued, pending.View());
      events := pending.history[|queued.history|..];
      BatchIsServedWell(p0, queued, pending.View(), pending.dummy, order, Oneshots(View()), EV_TIMER);
      ExpiryOrder(events, order, p0, s0, View(), now);
    }

    /** The heap before and after all its times were shifted in the first m slots. */
    ghost predicate Shifted(s: Entries, t: Entries, m: nat, adjust: real)
      requires HEAP0 + m <= |s|
    {
      && |t| == |s|
      && forall i: nat | HEAP0 <= i < |s| :: t[i] == if i < HEAP0 + m then Anhe(s[i].w, s[i].at + adjust) else s[i]
    }

    lemma SlotsAreArmed()
      requires HEAP0 + timercnt <= timers.Length && HeapShape()
      requires forall i: nat | HEAP0 <= i < HEAP0 + timercnt :: timers[i].w in ws && timers[i].at == timers[i].w.at
      requires forall w | w in ws && w.active != 0 :: HEAP0 <= w.active < HEAP0 + timercnt && timers[w.active].w == w
      ensures HeapValid()
    {
      forall w | w in ws && w.active != 0 ensures EntryOf(w) in Entries() {
        assert timers[..][w.active] == EntryOf(w);
      }
      HeapIsArmed();
    }

    lemma SlotsAreTimers()
      requires HeapValid()
      ensures forall i: nat | HEAP0 <= i < HEAP0 + timercnt ::
                timers[i].w != null && timers[i].w in ws && timers[i].w.active == i && timers[i].at == timers[i].w.at
    {
      forall i: nat | HEAP0 <= i < HEAP0 + timercnt
        ensures timers[i].w != null && timers[i].w in ws && timers[i].w.active == i && timers[i].at == timers[i].w.at
      {
        assert timers[..][i] in EntrySet(timers[..], timercnt);
      }
    }

    /** timers_reschedule. */
    method TimersReschedule(adjust: real)
      requires HeapValid()
      modifies timers, ws`at
      ensures HeapValid() && View() == ShiftAll(old(View()), adjust)
    {
      hide EntrySet, Heap, Members, Distinct, Indexed, Armed, View, ShiftAll;
      MembersAreActive();
      SlotsAreTimers();
      ghost var s := timers[..];
      ShiftTimes(adjust);
      ShiftKeepsHeap(s, timers[..], timercnt, adjust);
      ShiftKeepsIndex(s, timers[..], timercnt, adjust);
      SlotsAreArmed();
      TimersShifted(adjust);
    }

    /** The loop of timers_reschedule. */
    method ShiftTimes(adjust: real)
      requires HEAP0 + timercnt <= timers.Length && Distinct(timers[..], timercnt)
      requires forall i: nat | HEAP0 <= i < HEAP0 + timercnt ::
                 timers[i].w != null && timers[i].w in ws && timers[i].w.active == i && timers[i].at == timers[i].w.at
      requires forall w | w in ws && w.active != 0 :: HEAP0 <= w.active < HEAP0 + timercnt && timers[w.active].w == w
      modifies timers, ws`at
      ensures Shifted(old(timers[..]), timers[..], timercnt, adjust)
      ensures forall w | w in ws :: w.at == old(w.at) + if w.active != 0 then adjust else 0.0
    {
      hide Distinct;
      ghost var s := timers[..];
      assert forall i: nat | HEAP0 <= i < HEAP0 + timercnt :: s[i].w != null && s[i].w in ws && s[i].w.active == i;
      for i := 0 to timercnt
        invariant Shifted(s, timers[..], i, adjust)
        invariant forall w | w in ws ::
                    w.at == old(w.at) + if w.active != 0 && w.active < HEAP0 + i then adjust else 0.0
      {
        var w := timers[HEAP0 + i].w;
        assert w == s[HEAP0 + i].w;
        w.at := w.at + adjust;
        timers[HEAP0 + i] := Anhe(w, w.at);
      }
    }

    twostate lemma TimersShifted(adjust: real)
      requires forall w | w in ws :: w.repeat == old(w.repeat) && w.active == old(w.active)
      requires forall w | w in ws :: w.at == old(w.at) + if w.active != 0 then adjust else 0.0
      ensures View() == ShiftAll(old(View()), adjust)
    {
      assert View().at == ShiftAll(old(View()), adjust).at;
      assert View().repeat == old(View()).repeat;
      assert View().active == old(View()).active;
    }

    lemma ShiftKeepsIndex(s: Entries, t: Entries, n: nat, adjust: real)
      requires HEAP0 + n <= |s| && Shifted(s, t, n, adjust) && Distinct(s, n) && Distinct(t, n) && Indexed(s, n)
      ensures Indexed(t, n)
    {
    }

    lemma ShiftKeepsHeap(s: Entries, t: Entries, n: nat, adjust: real)
      requires HEAP0 + n <= |s| && Shifted(s, t, n, adjust) && Distinct(s, n) && Heap(s, n)
      ensures Distinct(t, n) && Heap(t, n) && Members(t, n) == Members(s, n)
    {
      SameWatchers(s, t, n);
      forall i: nat | HEAP0 <= i < HEAP0 + n ensures InOrder(t, i) {
        assert InOrder(s, i);
      }
    }

    /** time_update without a monotonic clock: when the clock has jumped, the timers jump with it. */
    method TimeUpdate(rt: real, max_block: real)
      requires Valid()
      modifies this`now, timers, ws`at
      ensures Valid() && now == rt
      ensures View() == if old(now) > rt || rt > old(now) + max_block + MIN_TIMEJUMP
                        then ShiftAll(old(View()), rt - old(now)) else old(View())
    {
      hide Good, HeapValid, ShiftAll, RepeatsOf, View, PendingQueues.Valid, PendingQueues.View;
      RepeatsShift(View(), rt - now);
      if now > rt || rt > now + max_block + MIN_TIMEJUMP {
        TimersReschedule(rt - now);
      }
      now := rt;
    }
  }
}

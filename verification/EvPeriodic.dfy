/** periodics_reify: the heap of periodic timers after a turn of the loop. */
module EvPeriodic {
  import opened EvHeap
  import opened EvWait

  /** How a periodic timer goes on: by its callback, which names the next time; at the next
      point of its grid; or not at all. */
  datatype Rule = Callback(next: real) | Every(offset: real, interval: real) | Once

  datatype Periodic = Periodic(id: nat, rule: Rule)

  type Entry = Anhe<Periodic>
  type Periodics = seq<Entry>

  /** What the source asserts of callbacks and intervals. */
  predicate Sane(e: Entry, now: real) {
    match e.w.rule
    case Callback(next) => next >= now
    case Every(_, interval) => interval > 0.0
    case Once => true
  }

  ghost predicate AllSane(s: Periodics, n: nat, now: real)
    requires HEAP0 + n <= |s|
  {
    forall i: nat | HEAP0 <= i < HEAP0 + n :: Sane(s[i], now)
  }

  // ---------- what is in the heap ----------

  /** What the entries of the heap contribute, each by itself. */
  ghost function Bag<X>(s: Periodics, n: nat, g: Entry -> multiset<X>): multiset<X>
    requires HEAP0 + n <= |s|
  {
    if n == 0 then multiset{} else Bag(s, n - 1, g) + g(s[HEAP0 + n - 1])
  }

  /** The timers of the heap, those of them that have expired, and the entries that have not. */
  ghost function Timers(): Entry -> multiset<Periodic> { (e: Entry) => multiset{e.w} }

  ghost function Expired(now: real): Entry -> multiset<Periodic> {
    (e: Entry) => if e.at < now then multiset{e.w} else multiset{}
  }

  ghost function Waiting(now: real): Entry -> multiset<Entry> {
    (e: Entry) => if e.at >= now then multiset{e} else multiset{}
  }

  /** The timers of fed that end. */
  ghost function Ended(fed: seq<Periodic>): multiset<Periodic> {
    if fed == [] then multiset{}
    else Ended(fed[..|fed|-1]) + if fed[|fed|-1].rule.Once? then multiset{fed[|fed|-1]} else multiset{}
  }

  lemma EndedSnoc(fed: seq<Periodic>, w: Periodic)
    ensures Ended(fed + [w]) == Ended(fed) + if w.rule.Once? then multiset{w} else multiset{}
  {
    assert (fed + [w])[..|fed|] == fed;
  }

  /** A timer that goes on does so at a time of its rule. */
  ghost predicate GoesOn(e: Entry, now: real) {
    match e.w.rule
    case Callback(next) => e.at == next
    case Every(offset, interval) =>
      now < e.at <= now + interval && (interval >= MIN_INTERVAL ==> exists k: int :: e.at == Grid(offset, interval, k))
    case Once => false
  }

  lemma {:induction false} BagUpdate<X>(s: Periodics, n: nat, k: nat, e: Entry, g: Entry -> multiset<X>)
    requires HEAP0 + n <= |s| && HEAP0 <= k < |s|
    ensures k < HEAP0 + n ==> Bag(s[k := e], n, g) + g(s[k]) == Bag(s, n, g) + g(e)
    ensures k >= HEAP0 + n ==> Bag(s[k := e], n, g) == Bag(s, n, g)
    decreases n
  {
    if n > 0 {
      BagUpdate(s, n - 1, k, e, g);
      if k == HEAP0 + n - 1 {
        Exchange(Bag(s, n - 1, g), g(e), g(s[k]));
      } else if k < HEAP0 + n {
        Exchange(Bag(s[k := e], n - 1, g), g(s[HEAP0 + n - 1]), g(s[k]));
        Exchange(Bag(s, n - 1, g), g(e), g(s[HEAP0 + n - 1]));
      }
    }
  }

  lemma Exchange<X>(a: multiset<X>, b: multiset<X>, c: multiset<X>)
    ensures a + b + c == a + c + b
  {
  }

  lemma Cancel<X>(a: multiset<X>, b: multiset<X>, c: multiset<X>)
    requires a + c == b + c
    ensures a == b
  {
    assert a == (a + c) - c && b == (b + c) - c;
  }

  lemma BagSwap<X>(s: Periodics, n: nat, i: nat, j: nat, g: Entry -> multiset<X>)
    requires HEAP0 + n <= |s| && HEAP0 <= i < HEAP0 + n && HEAP0 <= j < HEAP0 + n
    ensures Bag(Swap(s, i, j), n, g) == Bag(s, n, g)
  {
    BagUpdate(s, n, i, s[j], g);
    BagUpdate(s[i := s[j]], n, j, s[i], g);
    Cancel(Bag(Swap(s, i, j), n, g), Bag(s, n, g), g(s[j]));
  }

  /** Moving down keeps what is in the heap. */
  lemma {:induction false} DownHeapBag<X>(s: Periodics, n: nat, k: nat, g: Entry -> multiset<X>)
    requires HEAP0 <= k < HEAP0 + n <= |s|
    ensures Bag(DownHeap(s, n, k), n, g) == Bag(s, n, g)
    decreases HEAP0 + n - k
  {
    if FirstChild(k) < HEAP0 + n {
      var c := MinChild(s, n, k);
      if s[k].at > s[c].at {
        BagSwap(s, n, k, c, g);
        DownHeapBag(Swap(s, k, c), n, c, g);
      }
    }
  }

  lemma {:induction false} DownHeapSane(s: Periodics, n: nat, k: nat, now: real)
    requires HEAP0 <= k < HEAP0 + n <= |s| && AllSane(s, n, now)
    ensures AllSane(DownHeap(s, n, k), n, now)
    decreases HEAP0 + n - k
  {
    if FirstChild(k) < HEAP0 + n {
      var c := MinChild(s, n, k);
      if s[k].at > s[c].at {
        DownHeapSane(Swap(s, k, c), n, c, now);
      }
    }
  }

  /** Giving the root another entry leaves the order to be restored below it. */
  lemma RootReplaced(s: Periodics, n: nat, m: nat, e: Entry)
    requires 0 < m <= n && HEAP0 + n <= |s| && Heap(s, n)
    ensures HeapBut(s[HEAP0 := e], m, HEAP0)
  {
    var t := s[HEAP0 := e];
    forall i: nat | HEAP0 <= i < HEAP0 + m && i != HEAP0 && Parent(i) != HEAP0 ensures InOrder(t, i) {
      assert InOrder(s, i);
    }
  }

  /** The heap t has entry e in place of the root of s. */
  ghost predicate RootGives<X>(s: Periodics, t: Periodics, m: nat, e: Entry, g: Entry -> multiset<X>)
    requires HEAP0 < |s| && HEAP0 + m <= |s| && HEAP0 + m <= |t|
  {
    Bag(t, m, g) + g(s[HEAP0]) == Bag(s, m, g) + g(e)
  }

  /** The root gets another entry, or the last one, and moves down. */
  method SetRoot(s: Periodics, n: nat, m: nat, e: Entry, now: real) returns (t: Periodics)
    requires 0 < m <= n && HEAP0 + n <= |s| && Heap(s, n) && AllSane(s, n, now) && Sane(e, now)
    ensures |t| == |s| && Heap(t, m) && AllSane(t, m, now)
    ensures RootGives(s, t, m, e, Timers()) && RootGives(s, t, m, e, Expired(now)) && RootGives(s, t, m, e, Waiting(now))
  {
    t := DownHeap(s[HEAP0 := e], m, HEAP0);
    RootReplaced(s, n, m, e);
    DownHeapOrders(s[HEAP0 := e], m, HEAP0);
    DownHeapSane(s[HEAP0 := e], m, HEAP0, now);
    hide Bag, DownHeap, Expired, Timers, Waiting, Heap, HeapBut;
    RootIsGiven(s, m, e, Timers());
    RootIsGiven(s, m, e, Expired(now));
    RootIsGiven(s, m, e, Waiting(now));
  }

  lemma RootIsGiven<X>(s: Periodics, m: nat, e: Entry, g: Entry -> multiset<X>)
    requires 0 < m && HEAP0 + m <= |s|
    ensures RootGives(s, DownHeap(s[HEAP0 := e], m, HEAP0), m, e, g)
  {
    BagUpdate(s, m, HEAP0, e, g);
    DownHeapBag(s[HEAP0 := e], m, HEAP0, g);
  }

  /** From heap s to heap t the timer w has been dealt with: it is no longer among the expired, it
      has left if it is to run once, and otherwise it goes on as entry e. */
  ghost predicate DealtWith(s: Periodics, n: nat, t: Periodics, m: nat, w: Periodic, e: Entry, now: real)
    requires HEAP0 + n <= |s| && HEAP0 + m <= |t|
  {
    && Bag(t, m, Expired(now)) + multiset{w} == Bag(s, n, Expired(now))
    && Bag(t, m, Timers()) + (if w.rule.Once? then multiset{w} else multiset{}) == Bag(s, n, Timers())
    && Bag(t, m, Waiting(now)) == Bag(s, n, Waiting(now)) + (if w.rule.Once? then multiset{} else multiset{e})
    && (!w.rule.Once? ==> e.w == w && GoesOn(e, now))
  }

  lemma RootGoesOn(s: Periodics, n: nat, t: Periodics, e: Entry, now: real)
    requires 0 < n && HEAP0 + n <= |s| && HEAP0 + n <= |t| && s[HEAP0].at < now <= e.at && e.w == s[HEAP0].w && GoesOn(e, now)
    requires RootGives(s, t, n, e, Timers()) && RootGives(s, t, n, e, Expired(now)) && RootGives(s, t, n, e, Waiting(now))
    ensures DealtWith(s, n, t, n, e.w, e, now)
  {
    Cancel(Bag(t, n, Timers()), Bag(s, n, Timers()), multiset{e.w});
    hide Bag, GoesOn;
  }

  lemma RootLeaves(s: Periodics, n: nat, t: Periodics, now: real)
    requires 1 < n && HEAP0 + n <= |s| && HEAP0 + n <= |t| && s[HEAP0].at < now && s[HEAP0].w.rule.Once?
    requires var e := s[HEAP0 + n - 1];
             RootGives(s, t, n - 1, e, Timers()) && RootGives(s, t, n - 1, e, Expired(now)) && RootGives(s, t, n - 1, e, Waiting(now))
    ensures DealtWith(s, n, t, n - 1, s[HEAP0].w, s[HEAP0], now)
  {
    BagSnoc(s, n, Timers());
    BagSnoc(s, n, Expired(now));
    BagSnoc(s, n, Waiting(now));
    hide Bag, GoesOn;
  }

  lemma BagSnoc<X>(s: Periodics, n: nat, g: Entry -> multiset<X>)
    requires 0 < n && HEAP0 + n <= |s|
    ensures Bag(s, n, g) == Bag(s, n - 1, g) + g(s[HEAP0 + n - 1])
  {
  }

  lemma LastLeaves(s: Periodics, now: real)
    requires HEAP0 + 1 <= |s| && s[HEAP0].at < now && s[HEAP0].w.rule.Once?
    ensures DealtWith(s, 1, s, 0, s[HEAP0].w, s[HEAP0], now)
  {
  }

  /** The loop body of periodics_reify: the first entry goes on or leaves. */
  method ReifyFirst(s: Periodics, n: nat, now: real) returns (t: Periodics, m: nat, ghost e: Entry)
    requires 0 < n && HEAP0 + n <= |s| && Heap(s, n) && AllSane(s, n, now) && s[HEAP0].at < now
    ensures m <= n && |t| == |s| && Heap(t, m) && AllSane(t, m, now)
    ensures m == if s[HEAP0].w.rule.Once? then n - 1 else n
    ensures DealtWith(s, n, t, m, s[HEAP0].w, e, now)
  {
    hide DealtWith, RootGives;
    var w := s[HEAP0].w;
    assert Sane(s[HEAP0], now);
    m, e := n, s[HEAP0];
    match w.rule
    case Callback(next) =>
      e := Anhe(w, next);
      t := SetRoot(s, n, n, Anhe(w, next), now);
      RootGoesOn(s, n, t, e, now);
    case Every(offset, interval) =>
      var at, k := PeriodicRecalc(offset, interval, now);
      e := Anhe(w, at);
      t := SetRoot(s, n, n, Anhe(w, at), now);
      RootGoesOn(s, n, t, e, now);
    case Once =>
      m := n - 1;
      if m > 0 {
        assert Sane(s[HEAP0 + m], now);
        t := SetRoot(s, n, m, s[HEAP0 + m], now);
        RootLeaves(s, n, t, now);
      } else {
        t := s;
        LastLeaves(s, now);
      }
  }

  /** periodics_reify: exactly the timers that had expired are fed, each once; those of them that
      run once leave, the others go on at a later time, and the rest is as before. */
  method PeriodicsReify(s: Periodics, n: nat, now: real)
      returns (t: Periodics, m: nat, fed: seq<Periodic>, ghost renewed: seq<Entry>)
    requires HEAP0 + n <= |s| && Heap(s, n) && AllSane(s, n, now)
    ensures m <= n && |t| == |s| && Heap(t, m)
    ensures forall i: nat | HEAP0 <= i < HEAP0 + m :: t[i].at >= now
    ensures multiset(fed) == Bag(s, n, Expired(now))
    ensures Bag(t, m, Timers()) + Ended(fed) == Bag(s, n, Timers())
    ensures Bag(t, m, Waiting(now)) == Bag(s, n, Waiting(now)) + multiset(renewed)
    ensures forall e | e in renewed :: GoesOn(e, now)
  {
    hide Heap, AllSane, Progress, DealtWith;
    t, m, fed, renewed := s, n, [], [];
    NoProgress(s, n, now);
    while m != 0 && t[HEAP0].at < now
      invariant m <= n && |t| == |s| && Heap(t, m) && AllSane(t, m, now) && Progress(s, n, t, m, fed, renewed, now)
      decreases Bag(t, m, Expired(now))
    {
      ghost var had, k := t, m;
      var w := t[HEAP0].w;
      ghost var e;
      t, m, e := ReifyFirst(t, m, now);
      GoOn(s, n, had, k, t, m, fed, renewed, w, e, now);
      fed := fed + [w];
      renewed := renewed + if w.rule.Once? then [] else [e];
    }
    forall i: nat | HEAP0 <= i < HEAP0 + m ensures t[i].at >= now {
      RootIsFirst(t, m, i);
    }
    NoneExpired(t, m, now);
    Done(s, n, t, m, fed, renewed, now);
  }

  /** What has been fed so far, and what remains to be done. */
  ghost predicate Progress(s: Periodics, n: nat, t: Periodics, m: nat, fed: seq<Periodic>, renewed: seq<Entry>, now: real)
    requires HEAP0 + n <= |s| && HEAP0 + m <= |t|
  {
    && multiset(fed) + Bag(t, m, Expired(now)) == Bag(s, n, Expired(now))
    && Bag(t, m, Timers()) + Ended(fed) == Bag(s, n, Timers())
    && Bag(t, m, Waiting(now)) == Bag(s, n, Waiting(now)) + multiset(renewed)
    && forall e | e in renewed :: GoesOn(e, now)
  }

  lemma NoProgress(s: Periodics, n: nat, now: real)
    requires HEAP0 + n <= |s|
    ensures Progress(s, n, s, n, [], [], now)
  {
    hide Bag, Timers, Expired, Waiting;
  }

  lemma Done(s: Periodics, n: nat, t: Periodics, m: nat, fed: seq<Periodic>, renewed: seq<Entry>, now: real)
    requires HEAP0 + n <= |s| && HEAP0 + m <= |t| && Progress(s, n, t, m, fed, renewed, now)
    requires Bag(t, m, Expired(now)) == multiset{}
    ensures multiset(fed) == Bag(s, n, Expired(now))
    ensures Bag(t, m, Timers()) + Ended(fed) == Bag(s, n, Timers())
    ensures Bag(t, m, Waiting(now)) == Bag(s, n, Waiting(now)) + multiset(renewed)
    ensures forall e | e in renewed :: GoesOn(e, now)
  {
    hide Bag, Timers, Expired, Waiting, GoesOn;
  }

  lemma GoOn(s: Periodics, n: nat, t: Periodics, m: nat, t': Periodics, m': nat,
             fed: seq<Periodic>, renewed: seq<Entry>, w: Periodic, e: Entry, now: real)
    requires HEAP0 + n <= |s| && HEAP0 + m <= |t| && HEAP0 + m' <= |t'|
    requires Progress(s, n, t, m, fed, renewed, now) && DealtWith(t, m, t', m', w, e, now)
    ensures Progress(s, n, t', m', fed + [w], renewed + if w.rule.Once? then [] else [e], now)
    ensures Bag(t', m', Expired(now)) < Bag(t, m, Expired(now))
  {
    hide Bag, Timers, Expired, Waiting, GoesOn, Ended;
    EndedSnoc(fed, w);
    var ended := if w.rule.Once? then multiset{w} else multiset{};
    Exchange(Bag(t', m', Timers()), Ended(fed), ended);
    assert multiset(fed + [w]) == multiset(fed) + multiset{w};
    assert multiset(renewed + [e]) == multiset(renewed) + multiset{e};
    assert renewed + [] == renewed;
  }

  lemma {:induction false} NoneExpired(s: Periodics, n: nat, now: real)
    requires HEAP0 + n <= |s| && forall i: nat | HEAP0 <= i < HEAP0 + n :: s[i].at >= now
    ensures Bag(s, n, Expired(now)) == multiset{}
  {
    if n > 0 {
      NoneExpired(s, n - 1, now);
    }
  }
}

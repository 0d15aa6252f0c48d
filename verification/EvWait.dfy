/** How long the loop waits, and when periodic timers are due. */
module EvWait {
  import opened EvHeap

  const MAX_BLOCKTIME: real := 59.743
  const MIN_INTERVAL: real := 0.0001220703125

  // ---------- the blocking time ----------

  /** The settings of a loop that bound the time it waits. */
  datatype Settings = Settings(timeout_blocktime: real, io_blocktime: real, backend_mintime: real)

  /** The heaps of timers and periodics, with their clocks. */
  datatype Agenda<T> = Agenda(timers: seq<Anhe<T>>, timercnt: nat, mn_now: real,
                              periodics: seq<Anhe<T>>, periodiccnt: nat, rt_now: real)

  ghost predicate Ordered<T>(a: Agenda<T>) {
    && HEAP0 + a.timercnt <= |a.timers| && Heap(a.timers, a.timercnt)
    && HEAP0 + a.periodiccnt <= |a.periodics| && Heap(a.periodics, a.periodiccnt)
  }

  /** The time left of each timer and periodic. */
  function Left<T>(a: Agenda<T>): (left: seq<real>)
    requires HEAP0 + a.timercnt <= |a.timers| && HEAP0 + a.periodiccnt <= |a.periodics|
    ensures |left| == a.timercnt + a.periodiccnt
  {
    seq(a.timercnt, i requires 0 <= i < a.timercnt => a.timers[HEAP0 + i].at - a.mn_now) +
    seq(a.periodiccnt, i requires 0 <= i < a.periodiccnt => a.periodics[HEAP0 + i].at - a.rt_now)
  }

  function Max(x: real, y: real): real { if x < y then y else x }

  function Min(x: real, y: real): real { if x < y then x else y }

  /** The loop means to wait until the first of all timers and periodics is due, but at most for
      MAX_BLOCKTIME and at least for the two minima. */
  ghost predicate WaitsFor(total: real, left: seq<real>, settings: Settings) {
    var least := Max(settings.timeout_blocktime, settings.backend_mintime);
    && total >= least
    && (total > least ==>
          && total <= MAX_BLOCKTIME && (forall t | t in left :: total <= t)
          && (total == MAX_BLOCKTIME || total in left))
    && (total == least ==> MAX_BLOCKTIME <= least || exists t | t in left :: t <= least)
  }

  /** The part of ev_run that plans the wait, once it is allowed: how long the backend is to wait,
      and how long the loop sleeps before that: for what is left of the time in which events are
      collected, but so that the backend still waits for its minimum. */
  method PlanWait<T>(a: Agenda<T>, settings: Settings, prev_mn_now: real) returns (waittime: real, slept: real)
    requires Ordered(a)
    ensures WaitsFor(waittime + slept, Left(a), settings)
    ensures slept >= 0.0 && waittime >= settings.backend_mintime
    ensures slept == if settings.io_blocktime == 0.0 then 0.0
                     else Max(0.0, Min(settings.io_blocktime - (a.mn_now - prev_mn_now),
                                       waittime + slept - settings.backend_mintime))
  {
    waittime, slept := MAX_BLOCKTIME, 0.0;
    if a.timercnt != 0 {
      var to := a.timers[HEAP0].at - a.mn_now;
      if waittime > to {
        waittime := to;
      }
    }
    if a.periodiccnt != 0 {
      var to := a.periodics[HEAP0].at - a.rt_now;
      if waittime > to {
        waittime := to;
      }
    }
    RootsAreLeast(a);
    assert waittime == MAX_BLOCKTIME || waittime in Left(a);
    if waittime < settings.timeout_blocktime {
      waittime := settings.timeout_blocktime;
    }
    if waittime < settings.backend_mintime {
      waittime := settings.backend_mintime;
    }
    if settings.io_blocktime != 0.0 {
      var sleeptime := settings.io_blocktime - (a.mn_now - prev_mn_now);
      if sleeptime > waittime - settings.backend_mintime {
        sleeptime := waittime - settings.backend_mintime;
      }
      if sleeptime > 0.0 {
        slept := sleeptime;
        waittime := waittime - sleeptime;
      }
    }
  }

  /** The roots of the heaps stand for all entries. */
  lemma RootsAreLeast<T>(a: Agenda<T>)
    requires Ordered(a)
    ensures forall t | t in Left(a) ::
              (a.timercnt != 0 && a.timers[HEAP0].at - a.mn_now <= t) ||
              (a.periodiccnt != 0 && a.periodics[HEAP0].at - a.rt_now <= t)
    ensures a.timercnt != 0 ==> a.timers[HEAP0].at - a.mn_now in Left(a)
    ensures a.periodiccnt != 0 ==> a.periodics[HEAP0].at - a.rt_now in Left(a)
  {
    var left := Left(a);
    forall t | t in left
      ensures (a.timercnt != 0 && a.timers[HEAP0].at - a.mn_now <= t) ||
              (a.periodiccnt != 0 && a.periodics[HEAP0].at - a.rt_now <= t)
    {
      var i :| 0 <= i < |left| && left[i] == t;
      if i < a.timercnt {
        RootIsFirst(a.timers, a.timercnt, HEAP0 + i);
      } else {
        RootIsFirst(a.periodics, a.periodiccnt, HEAP0 + i - a.timercnt);
      }
    }
    if a.timercnt != 0 {
      assert left[0] == a.timers[HEAP0].at - a.mn_now;
    }
    if a.periodiccnt != 0 {
      assert left[a.timercnt] == a.periodics[HEAP0].at - a.rt_now;
    }
  }

  // ---------- periodics ----------

  /** The points of time that lie a whole number of intervals from the offset. */
  function Grid(offset: real, interval: real, k: int): real { offset + (k as real) * interval }

  lemma GridStep(offset: real, interval: real, k: int)
    ensures Grid(offset, interval, k + 1) == Grid(offset, interval, k) + interval
  {
    assert (k + 1) as real == k as real + 1.0;
  }

  lemma MulLeq(a: real, b: real, c: real)
    requires a <= b && c > 0.0
    ensures a * c <= b * c
  {
  }

  lemma MulLess(a: real, b: real, c: real)
    requires a < b && c > 0.0
    ensures a * c < b * c
  {
  }

  /** Rounding down finds the last point of the grid that is not after a time. */
  lemma GridBelow(offset: real, interval: real, now: real)
    requires interval > 0.0
    ensures var k := ((now - offset) / interval).Floor;
            Grid(offset, interval, k) <= now < Grid(offset, interval, k + 1)
  {
    var q := (now - offset) / interval;
    Quotient(now - offset, interval);
    GridAround(q, offset, interval, now);
  }

  lemma Quotient(x: real, y: real)
    requires y > 0.0
    ensures (x / y) * y == x
  {
  }

  lemma GridAround(q: real, offset: real, interval: real, now: real)
    requires interval > 0.0 && q * interval == now - offset
    ensures Grid(offset, interval, q.Floor) <= now < Grid(offset, interval, q.Floor + 1)
  {
    MulLeq(q.Floor as real, q, interval);
    var k := q.Floor + 1;
    var b := k as real;
    MulLess(q, b, interval);
    assert now - offset < b * interval;
    GridIs(offset, interval, k, b);
  }

  lemma GridIs(offset: real, interval: real, k: int, r: real)
    requires r == k as real
    ensures Grid(offset, interval, k) == offset + r * interval
  {
  }

  /** periodic_recalc: the next point of time after now that lies a whole number of intervals
      from the offset. */
  method PeriodicRecalc(offset: real, interval: real, now: real) returns (at: real, ghost k: int)
    requires interval > 0.0
    ensures now < at <= now + interval
    ensures interval >= MIN_INTERVAL ==> at == Grid(offset, interval, k)
  {
    hide Grid;
    var step := if interval > MIN_INTERVAL then interval else MIN_INTERVAL;
    k := ((now - offset) / step).Floor;
    GridBelow(offset, step, now);
    at := Start(offset, step, now);
    ghost var first, left := at, ((now - at) / interval).Floor + 1;
    GridBelow(at, interval, now);
    GridOrigin(at, interval);
    ghost var n := 0;
    while at <= now
      invariant at <= now + interval && at == Grid(first, interval, n) && now < Grid(first, interval, left)
      invariant interval >= MIN_INTERVAL ==> at == Grid(offset, interval, k)
      decreases left - n
    {
      GridOrder(first, interval, n, left);
      GridStep(first, interval, n);
      GridStep(offset, interval, k);
      at := at + interval;
      n, k := n + 1, k + 1;
    }
  }

  /** The first guess of periodic_recalc. */
  method Start(offset: real, step: real, now: real) returns (at: real)
    requires step > 0.0
    ensures at == Grid(offset, step, ((now - offset) / step).Floor)
  {
    at := offset + ((now - offset) / step).Floor as real * step;
  }

  lemma GridOrigin(offset: real, interval: real)
    ensures Grid(offset, interval, 0) == offset
  {
  }

  lemma GridOrder(offset: real, interval: real, n: int, m: int)
    requires interval > 0.0 && Grid(offset, interval, n) < Grid(offset, interval, m)
    ensures n < m
  {
    if m <= n {
      MulLeq(m as real, n as real, interval);
    }
  }
}

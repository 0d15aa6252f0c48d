/** How other threads and signal handlers wake an event loop: ev_async_send and ev_feed_signal
    against the loop, one memory access at a time. */
module EvAsync {
  import opened Common

  /** The two flags that evpipe_write is called with: sig_pending and async_pending. */
  datatype Flag = Signals | Asyncs

  /** A watcher's `sent`, or a signal's `pending`. */
  datatype Item = Item(flag: Flag, id: nat)

  /** Where a call of ev_async_send or ev_feed_signal is, once it has set the item. */
  datatype Stage =
    | Checking    // is the flag set already?
    | Setting     // the flag
    | Skipping    // sets pipe_write_skipped
    | Asking      // is pipe_write_wanted?
    | Unskipping  // clears pipe_write_skipped again
    | Writing     // to the pipe

  datatype Call = Call(item: Item, stage: Stage)

  /** Where the loop is. */
  datatype Place =
    | Busy                               // callbacks, timers; pipe_write_wanted is off
    | Deciding                           // pipe_write_wanted is on; was a write skipped?
    | Polling(wait: bool)                // in backend_poll, with a positive timeout or without
    | Polled(ready: bool)                // the pipe was reported readable, or not
    | Unwanted(ready: bool)              // pipe_write_wanted is off; was a write skipped?
    | Woken(ready: bool)                 // pipecb is pending
    | Clearing                           // in pipecb: clears pipe_write_skipped
    | Testing(flag: Flag)
    | Resetting(flag: Flag)
    | Scanning(flag: Flag, n: nat)       // the items below n are still to be looked at
    | Taking(flag: Flag, n: nat)         // item n was found set

  /** Here fed records the items that pipecb has
      found set, cleared, and fed to the loop. */
  datatype State = State(
    place: Place,
    wanted: bool,
    skipped: bool,
    flags: set<Flag>,
    sent: set<Item>,
    bytes: nat,
    calls: map<nat, Call>,
    signals: seq<nat>,
    asyncs: seq<nat>,
    fed: seq<Item>)

  datatype Step =
    | Begin(id: nat, item: Item)         // a thread enters ev_async_send or ev_feed_signal
    | Advance(id: nat, full: bool)       // its next access; a full pipe takes no more bytes
    | Loop(wait: bool, n: nat)           // the next access of the loop; it wants to wait; it reads n bytes
    | Start(w: nat)                      // ev_async_start, by a callback
    | Stop(k: nat)                       // ev_async_stop of asyncs[k], by a callback

  function Listed(s: State, f: Flag): seq<nat> {
    if f.Signals? then s.signals else s.asyncs
  }

  function Init(signals: seq<nat>): State {
    State(Busy, false, false, {}, {}, 0, map[], signals, [], [])
  }

  predicate Enabled(s: State, step: Step) {
    match step
    case Begin(id, item) => id !in s.calls
    case Advance(id, full) => id in s.calls && (full ==> s.bytes > 0)
    case Loop(wait, n) => s.place == Woken(true) && s.bytes > 0 ==> 0 < n <= s.bytes
    case Start(w) => s.place.Busy? || s.place.Woken?
    case Stop(k) => (s.place.Busy? || s.place.Woken?) && k < |s.asyncs|
  }

  /** The accesses of a call, in the order of evpipe_write. */
  function AdvanceCall(s: State, id: nat, full: bool): State
    requires id in s.calls
  {
    var c := s.calls[id];
    var done := s.calls - {id};
    match c.stage
    case Checking =>
      s.(calls := if c.item.flag in s.flags then done else s.calls[id := c.(stage := Setting)])
    case Setting => s.(flags := s.flags + {c.item.flag}, calls := s.calls[id := c.(stage := Skipping)])
    case Skipping => s.(skipped := true, calls := s.calls[id := c.(stage := Asking)])
    case Asking => s.(calls := if s.wanted then s.calls[id := c.(stage := Unskipping)] else done)
    case Unskipping => s.(skipped := false, calls := s.calls[id := c.(stage := Writing)])
    case Writing => s.(bytes := if full then s.bytes else s.bytes + 1, calls := done)
  }

  function After(f: Flag): Place {
    if f.Signals? then Testing(Asyncs) else Busy
  }

  /** The accesses of the loop: the wait in ev_run, and pipecb. */
  function AdvanceLoop(s: State, wait: bool, n: nat): State {
    match s.place
    case Busy => s.(wanted := true, place := Deciding)
    case Deciding => s.(place := Polling(wait && !s.skipped))
    case Polling(_) => s.(place := Polled(s.bytes > 0))
    case Polled(ready) => s.(wanted := false, place := Unwanted(ready))
    case Unwanted(ready) => s.(place := if ready || s.skipped then Woken(ready) else Busy)
    case Woken(ready) => s.(bytes := if ready && n <= s.bytes then s.bytes - n else s.bytes, place := Clearing)
    case Clearing => s.(skipped := false, place := Testing(Signals))
    case Testing(f) => s.(place := if f in s.flags then Resetting(f) else After(f))
    case Resetting(f) => s.(flags := s.flags - {f}, place := Scanning(f, |Listed(s, f)|))
    case Scanning(f, k) =>
      s.(place := if k == 0 || k > |Listed(s, f)| then After(f)
                  else if Item(f, Listed(s, f)[k-1]) in s.sent then Taking(f, k - 1)
                  else Scanning(f, k - 1))
    case Taking(f, k) =>
      if k >= |Listed(s, f)| then s.(place := Scanning(f, k))
      else
        var item := Item(f, Listed(s, f)[k]);
        s.(sent := s.sent - {item}, fed := s.fed + [item], place := Scanning(f, k))
  }

  function Next(s: State, step: Step): State
    requires Enabled(s, step)
  {
    match step
    case Begin(id, item) => s.(sent := s.sent + {item}, calls := s.calls[id := Call(item, Checking)])
    case Advance(id, full) => AdvanceCall(s, id, full)
    case Loop(wait, n) => AdvanceLoop(s, wait, n)
    case Start(w) =>
      if w in s.asyncs then s else s.(sent := s.sent - {Item(Asyncs, w)}, asyncs := s.asyncs + [w])
    case Stop(k) =>
      var last := |s.asyncs| - 1;
      s.(asyncs := s.asyncs[k := s.asyncs[last]][..last])
  }

  // ---------- the invariant ----------

  ghost predicate SomeCall(s: State, a: Stage, b: Stage) {
    exists id | id in s.calls :: s.calls[id].stage == a || s.calls[id].stage == b
  }

  ghost predicate CallFor(s: State, item: Item) {
    exists id | id in s.calls :: s.calls[id].item == item && (s.calls[id].stage == Checking || s.calls[id].stage == Setting)
  }

  /** The loop is on its way to test f. */
  predicate WillTest(p: Place, f: Flag) {
    || p.Woken? || p.Clearing?
    || (p.Testing? && (p.flag.Signals? || f.Asyncs?))
    || ((p.Resetting? || p.Scanning? || p.Taking?) && p.flag.Signals? && f.Asyncs?)
    || (p.Resetting? && p.flag == f)
  }

  /** A set flag has been, or will be, made known to the loop. */
  ghost predicate FlagSeen(s: State, f: Flag) {
    f in s.flags ==> s.skipped || s.bytes > 0 || SomeCall(s, Skipping, Writing) || WillTest(s.place, f)
  }

  /** The loop will still look at index k of the items of f. */
  predicate WillScan(p: Place, f: Flag, k: nat) {
    (p.Scanning? && p.flag == f && k < p.n) || (p.Taking? && p.flag == f && k <= p.n)
  }

  /** An item that is set has its flag set, or will have, or the loop will find it. */
  ghost predicate ItemSeen(s: State, f: Flag, k: nat)
    requires k < |Listed(s, f)|
  {
    var item := Item(f, Listed(s, f)[k]);
    item in s.sent && f !in s.flags ==> CallFor(s, item) || WillScan(s.place, f, k)
  }

  ghost predicate Inv(s: State) {
    && (s.wanted <==> s.place.Deciding? || s.place.Polling? || s.place.Polled?)
    && (s.place == Polling(true) && s.skipped ==> SomeCall(s, Asking, Unskipping))
    && (forall f :: FlagSeen(s, f))
    && (forall f, k: nat | k < |Listed(s, f)| :: ItemSeen(s, f, k))
    && (s.place.Scanning? ==> s.place.n <= |Listed(s, s.place.flag)|)
    && (s.place.Taking? ==> s.place.n < |Listed(s, s.place.flag)|)
  }

  lemma OthersRemain(s: State, t: State, id: nat, a: Stage, b: Stage)
    requires SomeCall(s, a, b)
    requires id in s.calls ==> s.calls[id].stage != a && s.calls[id].stage != b
    requires t.calls - {id} == s.calls - {id}
    ensures SomeCall(t, a, b)
  {
    var o :| o in s.calls && (s.calls[o].stage == a || s.calls[o].stage == b);
    assert o in s.calls - {id} && s.calls[o] == (s.calls - {id})[o];
    assert o in t.calls - {id} && t.calls[o] == (t.calls - {id})[o];
  }

  lemma CallsForRemain(s: State, t: State, id: nat, item: Item)
    requires CallFor(s, item)
    requires id in s.calls ==> s.calls[id].item != item || (s.calls[id].stage != Checking && s.calls[id].stage != Setting)
    requires t.calls - {id} == s.calls - {id}
    ensures CallFor(t, item)
  {
    var o :| o in s.calls && s.calls[o].item == item && (s.calls[o].stage == Checking || s.calls[o].stage == Setting);
    assert o in s.calls - {id} && s.calls[o] == (s.calls - {id})[o];
    assert o in t.calls - {id} && t.calls[o] == (t.calls - {id})[o];
  }

  lemma BeginKeepsInv(s: State, id: nat, item: Item)
    requires Inv(s) && id !in s.calls
    ensures Inv(Next(s, Begin(id, item)))
  {
    var t := Next(s, Begin(id, item));
    assert t.calls - {id} == s.calls - {id};
    if SomeCall(s, Asking, Unskipping) {
      OthersRemain(s, t, id, Asking, Unskipping);
    }
    forall f ensures FlagSeen(t, f) {
      assert FlagSeen(s, f);
      if SomeCall(s, Skipping, Writing) {
        OthersRemain(s, t, id, Skipping, Writing);
      }
    }
    forall f, k: nat | k < |Listed(t, f)| ensures ItemSeen(t, f, k) {
      assert ItemSeen(s, f, k);
      var i := Item(f, Listed(t, f)[k]);
      if i == item {
        assert t.calls[id].item == item;
      } else if CallFor(s, i) {
        CallsForRemain(s, t, id, i);
      }
    }
  }

  lemma AdvanceKeepsFlags(s: State, id: nat, full: bool, f: Flag)
    requires Inv(s) && id in s.calls && (full ==> s.bytes > 0)
    ensures FlagSeen(AdvanceCall(s, id, full), f)
  {
    var t := AdvanceCall(s, id, full);
    assert FlagSeen(s, f);
    assert t.calls - {id} == s.calls - {id};
    if t.calls.Keys != s.calls.Keys - {id} && (t.calls[id].stage == Skipping || t.calls[id].stage == Writing) {
      assert SomeCall(t, Skipping, Writing);
    } else if s.calls[id].stage != Skipping && s.calls[id].stage != Writing && SomeCall(s, Skipping, Writing) {
      OthersRemain(s, t, id, Skipping, Writing);
    }
  }

  lemma AdvanceKeepsItems(s: State, id: nat, full: bool, f: Flag, k: nat)
    requires id in s.calls && (full ==> s.bytes > 0) && k < |Listed(s, f)| && ItemSeen(s, f, k)
    ensures k < |Listed(AdvanceCall(s, id, full), f)| && ItemSeen(AdvanceCall(s, id, full), f, k)
  {
    AdvanceFrame(s, id, full);
    hide WillScan, CallFor, AdvanceCall;
    var item := Item(f, Listed(s, f)[k]);
    if item in s.sent && f !in s.flags && CallFor(s, item) {
      AdvanceKeepsCall(s, id, full, item);
    }
  }

  /** A call changes the flags, the pipe and its own stage, and never clears a flag. */
  lemma AdvanceFrame(s: State, id: nat, full: bool)
    requires id in s.calls
    ensures var t := AdvanceCall(s, id, full);
            && t.signals == s.signals && t.asyncs == s.asyncs && t.place == s.place && t.sent == s.sent
            && s.flags <= t.flags && t.calls - {id} == s.calls - {id}
  {
  }

  lemma AdvanceKeepsCall(s: State, id: nat, full: bool, item: Item)
    requires id in s.calls && CallFor(s, item)
    ensures var t := AdvanceCall(s, id, full); item.flag in t.flags || CallFor(t, item)
  {
    AdvanceFrame(s, id, full);
    var t, c := AdvanceCall(s, id, full), s.calls[id];
    if c.item == item && (c.stage == Checking || c.stage == Setting) {
      if item.flag !in t.flags {
        assert t.calls[id].item == item && t.calls[id].stage == Setting;
      }
    } else {
      CallsForRemain(s, t, id, item);
    }
  }

  lemma AdvanceKeepsInv(s: State, id: nat, full: bool)
    requires Inv(s) && id in s.calls && (full ==> s.bytes > 0)
    ensures Inv(AdvanceCall(s, id, full))
  {
    var t := AdvanceCall(s, id, full);
    forall f ensures FlagSeen(t, f) {
      AdvanceKeepsFlags(s, id, full, f);
    }
    forall f, k: nat | k < |Listed(t, f)| ensures ItemSeen(t, f, k) {
      AdvanceKeepsItems(s, id, full, f, k);
    }
    if t.place == Polling(true) && t.skipped {
      assert t.calls - {id} == s.calls - {id};
      if id in t.calls && (t.calls[id].stage == Asking || t.calls[id].stage == Unskipping) {
        assert SomeCall(t, Asking, Unskipping);
      } else {
        OthersRemain(s, t, id, Asking, Unskipping);
      }
    }
  }

  lemma SameCalls(s: State, t: State)
    requires s.calls == t.calls
    ensures forall a, b :: SomeCall(s, a, b) <==> SomeCall(t, a, b)
    ensures forall item :: CallFor(s, item) <==> CallFor(t, item)
  {
  }

  lemma LoopKeepsItems(s: State, wait: bool, n: nat, f: Flag, k: nat)
    requires Inv(s) && k < |Listed(s, f)|
    ensures var t := AdvanceLoop(s, wait, n); k < |Listed(t, f)| && ItemSeen(t, f, k)
  {
    SameCalls(s, AdvanceLoop(s, wait, n));
    assert ItemSeen(s, f, k);
  }

  lemma LoopKeepsInv(s: State, wait: bool, n: nat)
    requires Inv(s) && Enabled(s, Loop(wait, n))
    ensures Inv(AdvanceLoop(s, wait, n))
  {
    var t := AdvanceLoop(s, wait, n);
    SameCalls(s, t);
    forall f ensures FlagSeen(t, f) {
      assert FlagSeen(s, f);
    }
    forall f, k: nat | k < |Listed(t, f)| ensures ItemSeen(t, f, k) {
      LoopKeepsItems(s, wait, n, f, k);
    }
  }

  lemma ListKeepsInv(s: State, step: Step)
    requires Inv(s) && Enabled(s, step) && (step.Start? || step.Stop?)
    ensures Inv(Next(s, step))
  {
    var t := Next(s, step);
    SameCalls(s, t);
    forall f ensures FlagSeen(t, f) {
      assert FlagSeen(s, f);
    }
    forall f, k: nat | k < |Listed(t, f)| ensures ItemSeen(t, f, k) {
      if k < |Listed(s, f)| {
        assert ItemSeen(s, f, k);
        if f.Asyncs? && step.Stop? && k == step.k {
          assert ItemSeen(s, f, |s.asyncs| - 1);
        }
      }
    }
  }

  lemma StepKeepsInv(s: State, step: Step)
    requires Inv(s) && Enabled(s, step)
    ensures Inv(Next(s, step))
  {
    if step.Begin? {
      BeginKeepsInv(s, step.id, step.item);
    } else if step.Advance? {
      AdvanceKeepsInv(s, step.id, step.full);
    } else if step.Loop? {
      LoopKeepsInv(s, step.wait, step.n);
    } else {
      ListKeepsInv(s, step);
    }
  }

  // ---------- what a step is for ----------

  /** An item is taken in a step: it is fed. */
  predicate Takes(s: State, step: Step, item: Item) { Enabled(s, step) && Next(s, step).fed == s.fed + [item] }

  lemma TakesOne(s: State, step: Step, i: Item, item: Item)
    requires Enabled(s, step) && Next(s, step).fed == s.fed + [i]
    ensures Takes(s, step, item) <==> i == item
  {
    assert (s.fed + [i])[|s.fed|] == i && (s.fed + [item])[|s.fed|] == item;
    hide Next, Enabled;
  }

  lemma TakesNone(s: State, step: Step, item: Item)
    requires Enabled(s, step) && Next(s, step).fed == s.fed
    ensures !Takes(s, step, item)
  {
    assert |s.fed + [item]| == |s.fed| + 1;
    hide Next, Enabled;
  }

  lemma TakingFeeds(s: State, wait: bool, n: nat)
    requires Inv(s)
    ensures var t := AdvanceLoop(s, wait, n);
            if s.place.Taking? then
              var item := Item(s.place.flag, Listed(s, s.place.flag)[s.place.n]);
              t.sent == s.sent - {item} && t.fed == s.fed + [item]
            else t.sent == s.sent && t.fed == s.fed
  {
    hide FlagSeen, ItemSeen, SomeCall;
  }

  /** An item is set from when it is sent until it is taken or its watcher is started anew. */
  lemma SentUntilTaken(s: State, step: Step, item: Item)
    requires Inv(s) && Enabled(s, step)
    ensures item in Next(s, step).sent <==>
              || (step.Begin? && step.item == item)
              || (item in s.sent && !Takes(s, step, item)
                  && !(step.Start? && item == Item(Asyncs, step.w) && step.w !in s.asyncs))
  {
    hide Takes, AdvanceLoop, FlagSeen, ItemSeen, SomeCall;
    if step.Loop? {
      TakingFeeds(s, step.wait, step.n);
      if s.place.Taking? {
        TakesOne(s, step, Item(s.place.flag, Listed(s, s.place.flag)[s.place.n]), item);
      } else {
        TakesNone(s, step, item);
      }
    } else {
      TakesNone(s, step, item);
    }
  }

  ghost predicate Once(ws: seq<nat>) { forall i, j | 0 <= i < j < |ws| :: ws[i] != ws[j] }

  lemma SwapRemoves(ws: seq<nat>, k: nat, w: nat)
    requires Once(ws) && k < |ws|
    ensures var rest := ws[k := ws[|ws|-1]][..|ws|-1];
            Once(rest) && (w in rest <==> w in ws && w != ws[k])
  {
    var rest := ws[k := ws[|ws|-1]][..|ws|-1];
    if w in ws && w != ws[k] {
      var i :| 0 <= i < |ws| && ws[i] == w;
      assert rest[if i < |ws| - 1 then i else k] == w;
    }
  }

  /** Starting a watcher lists it and stopping one unlists it; nothing else does, nobody else is
      touched, and nobody is listed twice. */
  lemma ListedExactly(s: State, step: Step, w: nat)
    requires Once(s.asyncs) && Enabled(s, step)
    ensures w in Next(s, step).asyncs <==>
              step == Start(w) || (w in s.asyncs && !(step.Stop? && s.asyncs[step.k] == w))
    ensures Once(Next(s, step).asyncs) && Next(s, step).signals == s.signals
    ensures step.Stop? ==> Next(s, step).(asyncs := s.asyncs) == s
  {
    hide AdvanceLoop, AdvanceCall;
    if step.Stop? {
      SwapRemoves(s.asyncs, step.k, w);
    } else if step.Loop? || step.Advance? {
      ListFrame(s, step);
    }
  }

  lemma ListFrame(s: State, step: Step)
    requires Enabled(s, step) && (step.Loop? || step.Advance?)
    ensures Next(s, step).asyncs == s.asyncs && Next(s, step).signals == s.signals
  {
  }

  // ---------- whole runs ----------

  /** The steps can be taken one after the other. */
  predicate Possible(s: State, steps: seq<Step>)
    decreases |steps|
  {
    steps == [] || (Enabled(s, steps[0]) && Possible(Next(s, steps[0]), steps[1..]))
  }

  function Run(s: State, steps: seq<Step>): State
    requires Possible(s, steps)
    decreases |steps|
  {
    if steps == [] then s else Run(Next(s, steps[0]), steps[1..])
  }

  lemma {:induction false} RunKeepsInv(s: State, steps: seq<Step>)
    requires Inv(s) && Possible(s, steps)
    ensures Inv(Run(s, steps))
    decreases |steps|
  {
    if steps != [] {
      StepKeepsInv(s, steps[0]);
      RunKeepsInv(Next(s, steps[0]), steps[1..]);
    }
  }

  /** No wakeup is lost: whatever any number of threads and the loop have done, and in whatever
      order, when the loop waits, nothing is in the pipe to wake it, and no call is under way,
      then no active item is set. */
  lemma NoLostWakeup(signals: seq<nat>, steps: seq<Step>, item: Item)
    requires Possible(Init(signals), steps)
    requires var s := Run(Init(signals), steps); s.place == Polling(true) && s.bytes == 0 && s.calls == map[]
    ensures var s := Run(Init(signals), steps);
            s.flags == {} && !s.skipped && (item.id in Listed(s, item.flag) ==> item !in s.sent)
  {
    RunKeepsInv(Init(signals), steps);
    var s := Run(Init(signals), steps);
    assert FlagSeen(s, Signals) && FlagSeen(s, Asyncs);
    NoFlags(s);
    if item.id in Listed(s, item.flag) {
      var k: nat :| k < |Listed(s, item.flag)| && Listed(s, item.flag)[k] == item.id;
      assert ItemSeen(s, item.flag, k);
    }
  }

  // ---------- one pass of the loop ----------

  /** Steps of the loop only, until it is busy again. */
  ghost predicate Pass(s: State, steps: seq<Step>)
    decreases |steps|
  {
    && steps != [] && steps[0].Loop? && Enabled(s, steps[0])
    && var t := Next(s, steps[0]);
       if t.place.Busy? then |steps| == 1 else |steps| > 1 && Pass(t, steps[1..])
  }

  /** What holds while the loop passes with no calls under way. */
  ghost predicate Passing(s: State) {
    && Inv(s) && s.calls == map[] && !s.place.Busy?
    && ((s.place.Polled? || s.place.Unwanted?) && s.flags != {} ==> s.skipped || s.place.ready)
    && (s.place.Scanning? || s.place.Taking? ==> s.place.flag !in s.flags)
    && (InAsyncs(s.place) ==> Signals !in s.flags)
  }

  predicate InAsyncs(p: Place) {
    (p.Testing? || p.Resetting? || p.Scanning? || p.Taking?) && p.flag.Asyncs?
  }

  lemma NoFlags(s: State)
    requires Signals !in s.flags && Asyncs !in s.flags
    ensures s.flags == {}
  {
    forall f: Flag ensures f !in s.flags {
      assert f == Signals || f == Asyncs;
    }
  }

  lemma QuietFlag(s: State, f: Flag)
    requires Inv(s) && s.calls == map[]
    ensures f in s.flags ==> s.skipped || s.bytes > 0 || WillTest(s.place, f)
  {
    assert FlagSeen(s, f);
  }

  lemma PassingEnds(s: State, wait: bool, n: nat)
    requires Passing(s) && AdvanceLoop(s, wait, n).place.Busy?
    ensures AdvanceLoop(s, wait, n).flags == {}
  {
    hide Inv;
    QuietFlag(s, Signals);
    QuietFlag(s, Asyncs);
    NoFlags(s);
  }

  lemma PassingStep(s: State, step: Step)
    requires Passing(s) && step.Loop? && Enabled(s, step)
    ensures var t := Next(s, step); if t.place.Busy? then t.flags == {} else Passing(t)
  {
    LoopKeepsInv(s, step.wait, step.n);
    if Next(s, step).place.Busy? {
      PassingEnds(s, step.wait, step.n);
    } else {
      PassingGoesOn(s, step.wait, step.n);
    }
    hide Inv, AdvanceLoop;
  }

  lemma PassingGoesOn(s: State, wait: bool, n: nat)
    requires Passing(s) && !AdvanceLoop(s, wait, n).place.Busy? && Inv(AdvanceLoop(s, wait, n))
    ensures Passing(AdvanceLoop(s, wait, n))
  {
    WakesUp(s, wait, n);
    FlagsAreReset(s, wait, n);
    assert AdvanceLoop(s, wait, n).calls == s.calls;
    hide Inv, AdvanceLoop;
  }

  lemma WakesUp(s: State, wait: bool, n: nat)
    requires Passing(s)
    ensures var t := AdvanceLoop(s, wait, n);
            (t.place.Polled? || t.place.Unwanted?) && t.flags != {} ==> t.skipped || t.place.ready
  {
    hide Inv, InAsyncs;
    if s.place.Polling? {
      PollingNotices(s);
    }
  }

  lemma FlagsAreReset(s: State, wait: bool, n: nat)
    requires s.place.Scanning? || s.place.Taking? ==> s.place.flag !in s.flags
    requires InAsyncs(s.place) ==> Signals !in s.flags
    ensures var t := AdvanceLoop(s, wait, n);
            && (t.place.Scanning? || t.place.Taking? ==> t.place.flag !in t.flags)
            && (InAsyncs(t.place) ==> Signals !in t.flags)
  {
    hide Listed;
    if s.place.Scanning? || s.place.Taking? {
      assert AdvanceLoop(s, wait, n).flags == s.flags;
    } else if s.place.Resetting? {
      assert AdvanceLoop(s, wait, n).flags == s.flags - {s.place.flag};
    }
  }

  lemma PollingNotices(s: State)
    requires Inv(s) && s.calls == map[] && s.place.Polling?
    ensures s.flags != {} ==> s.skipped || s.bytes > 0
  {
    hide Inv;
    QuietFlag(s, Signals);
    QuietFlag(s, Asyncs);
    if Signals !in s.flags && Asyncs !in s.flags {
      NoFlags(s);
    }
  }

  lemma {:induction false} PassClears(s: State, steps: seq<Step>)
    requires Passing(s) && Pass(s, steps)
    ensures Possible(s, steps) && Run(s, steps).flags == {} && Run(s, steps).place.Busy?
    ensures Run(s, steps).calls == map[] && Inv(Run(s, steps))
    decreases |steps|
  {
    PassingStep(s, steps[0]);
    LoopKeepsInv(s, steps[0].wait, steps[0].n);
    if !Next(s, steps[0]).place.Busy? {
      PassClears(Next(s, steps[0]), steps[1..]);
    }
  }

  /** Once pipecb has begun to look for flags, no write counts as skipped. */
  ghost predicate Quieting(s: State) {
    s.calls == map[] && (s.place.Testing? || s.place.Resetting? || s.place.Scanning? || s.place.Taking? ==> !s.skipped)
  }

  lemma QuietStep(s: State, step: Step)
    requires Quieting(s) && step.Loop? && Enabled(s, step) && !s.place.Busy?
    ensures Quieting(Next(s, step)) && (Next(s, step).place.Busy? ==> !Next(s, step).skipped)
  {
  }

  lemma {:induction false} PassQuiets(s: State, steps: seq<Step>)
    requires Quieting(s) && Pass(s, steps) && Possible(s, steps) && !s.place.Busy?
    ensures !Run(s, steps).skipped
    decreases |steps|
  {
    hide Quieting, Next, Enabled;
    QuietStep(s, steps[0]);
    if !Next(s, steps[0]).place.Busy? {
      PassQuiets(Next(s, steps[0]), steps[1..]);
    }
  }

  /** No busy waiting: behind a pass during which nobody sent anything, a loop that wants to wait does
      wait, and it sleeps on if the pipe was read empty. */
  lemma WaitsAgain(s: State, steps: seq<Step>, n: nat, more: nat)
    requires Inv(s) && s.calls == map[] && s.place.Deciding? && Pass(s, steps)
    ensures Possible(s, steps) && Run(s, steps).place.Busy?
    ensures var t := AdvanceLoop(AdvanceLoop(Run(s, steps), true, n), true, more);
            && t.place == Polling(true)
            && (t.bytes == 0 ==> AdvanceLoop(t, true, n).place == Polled(false)
                                 && AdvanceLoop(AdvanceLoop(AdvanceLoop(t, true, n), true, n), true, n).place.Busy?)
  {
    assert Passing(s) && Quieting(s);
    PassClears(s, steps);
    PassQuiets(s, steps);
    hide Inv, Passing, Pass, Run;
  }

  predicate IsListed(s: State, item: Item) { item.id in Listed(s, item.flag) }

  /** Since state s0 nothing happened but that the items news, which were set and listed, were taken,
      each once. */
  ghost predicate TookOnly(s0: State, s: State, news: seq<Item>) {
    && s.signals == s0.signals && s.asyncs == s0.asyncs && s.fed == s0.fed + news && NoDups(news)
    && (forall item | item in news :: item in s0.sent && IsListed(s0, item))
    && (forall item :: item in s.sent <==> item in s0.sent && item !in news)
  }

  /** The item that the loop is about to take is set: in a pass nobody else clears it. */
  predicate FoundSet(s: State) {
    s.place.Taking? ==>
      s.place.n < |Listed(s, s.place.flag)| && Item(s.place.flag, Listed(s, s.place.flag)[s.place.n]) in s.sent
  }

  lemma TakingOne(s0: State, s: State, news: seq<Item>, wait: bool, n: nat)
    requires TookOnly(s0, s, news) && FoundSet(s) && s.place.Taking?
    ensures var item := Item(s.place.flag, Listed(s, s.place.flag)[s.place.n]);
            TookOnly(s0, AdvanceLoop(s, wait, n), news + [item])
  {
    var item := Item(s.place.flag, Listed(s, s.place.flag)[s.place.n]);
    assert IsListed(s0, item);
    assert s.fed + [item] == s0.fed + (news + [item]);
  }

  lemma {:induction false} PassTakes(s0: State, s: State, steps: seq<Step>, news: seq<Item>) returns (all: seq<Item>)
    requires TookOnly(s0, s, news) && FoundSet(s) && Pass(s, steps) && Possible(s, steps)
    ensures TookOnly(s0, Run(s, steps), all)
    decreases |steps|
  {
    hide TookOnly, FoundSet, AdvanceLoop;
    var t := Next(s, steps[0]);
    StaysFound(s, steps[0].wait, steps[0].n);
    all := StepTakes(s0, s, news, steps[0].wait, steps[0].n);
    if !t.place.Busy? {
      all := PassTakes(s0, t, steps[1..], all);
    }
  }

  lemma StaysFound(s: State, wait: bool, n: nat)
    requires FoundSet(s)
    ensures FoundSet(AdvanceLoop(s, wait, n))
  {
  }

  lemma StepTakes(s0: State, s: State, news: seq<Item>, wait: bool, n: nat) returns (all: seq<Item>)
    requires TookOnly(s0, s, news) && FoundSet(s)
    ensures TookOnly(s0, AdvanceLoop(s, wait, n), all)
  {
    hide TookOnly, AdvanceLoop;
    all := news;
    if s.place.Taking? {
      TakingOne(s0, s, news, wait, n);
      all := news + [Item(s.place.flag, Listed(s, s.place.flag)[s.place.n])];
    } else {
      NotTaking(s0, s, news, wait, n);
    }
  }

  lemma NotTaking(s0: State, s: State, news: seq<Item>, wait: bool, n: nat)
    requires TookOnly(s0, s, news) && !s.place.Taking?
    ensures TookOnly(s0, AdvanceLoop(s, wait, n), news)
  {
  }

  /** Whatever was sent before is delivered within one pass: if no call is under way when the loop
      stops being busy, then up to when it is busy again exactly the active items that were set are
      taken and fed, each once, and none is left set. */
  lemma PassDelivers(signals: seq<nat>, before: seq<Step>, steps: seq<Step>) returns (news: seq<Item>)
    requires Possible(Init(signals), before)
    requires var s := Run(Init(signals), before); s.place.Busy? && s.calls == map[] && Pass(s, steps)
    ensures Possible(Run(Init(signals), before), steps)
    ensures var s := Run(Init(signals), before);
            var t := Run(s, steps);
            && t.place.Busy? && t.fed == s.fed + news && NoDups(news)
            && forall item :: item in news <==> item in s.sent && IsListed(s, item)
    ensures var s := Run(Init(signals), before);
            var t := Run(s, steps);
            t.sent == s.sent - (set item | item in news)
  {
    RunKeepsInv(Init(signals), before);
    var s := Run(Init(signals), before);
    StepKeepsInv(s, steps[0]);
    PassClears(Next(s, steps[0]), steps[1..]);
    var t := Run(s, steps);
    assert s.fed == s.fed + [];
    news := PassTakes(s, s, steps, []);
    forall item | item in s.sent && IsListed(s, item) ensures item in news {
      var k: nat :| k < |Listed(t, item.flag)| && Listed(t, item.flag)[k] == item.id;
      assert ItemSeen(t, item.flag, k);
    }
  }

  // ---------- a pass while others send ----------

  /** What may happen while the loop passes: steps of the loop and of senders. */
  predicate InPass(step: Step) { step.Loop? || step.Begin? || step.Advance? }

  /** Such steps until the loop is busy again. */
  ghost predicate Amid(s: State, steps: seq<Step>)
    decreases |steps|
  {
    && steps != [] && InPass(steps[0]) && Enabled(s, steps[0])
    && var t := Next(s, steps[0]);
       if t.place.Busy? then |steps| == 1 else Amid(t, steps[1..])
  }

  /** A pass, beginning with the step by which the loop stops being busy. */
  ghost predicate SharedPass(s: State, steps: seq<Step>) {
    && s.place.Busy? && steps != [] && steps[0].Loop? && Enabled(s, steps[0]) && Amid(Next(s, steps[0]), steps[1..])
  }

  /** The loop decides that nobody has sent anything: it was not woken, and no write was skipped. */
  predicate Decides(s: State, step: Step) { step.Loop? && s.place == Unwanted(false) && !s.skipped }

  predicate PassesBy(s: State, steps: seq<Step>)
    requires Possible(s, steps)
    decreases |steps|
  {
    steps != [] && (Decides(s, steps[0]) || PassesBy(Next(s, steps[0]), steps[1..]))
  }

  /** The item has been sent, and its flag is set. */
  predicate IsSet(s: State, item: Item) { item in s.sent && IsListed(s, item) && item.flag in s.flags }

  /** The loop has not decided yet. */
  predicate Early(p: Place) { p.Deciding? || p.Polling? || p.Polled? || p.Unwanted? }

  ghost predicate Found(s: State, item: Item) {
    exists k: nat | k < |Listed(s, item.flag)| :: Listed(s, item.flag)[k] == item.id && WillScan(s.place, item.flag, k)
  }

  /** The loop is on its way to take the item. */
  ghost predicate Coming(s: State, item: Item) {
    && item in s.sent && IsListed(s, item)
    && ((item.flag in s.flags && WillTest(s.place, item.flag)) || Found(s, item))
  }

  lemma SendersKeepComing(s: State, step: Step, item: Item)
    requires Coming(s, item) && Enabled(s, step) && (step.Begin? || step.Advance?)
    ensures Coming(Next(s, step), item) && Next(s, step).fed == s.fed && Next(s, step).place == s.place
  {
    SendersFrame(s, step);
    var t := Next(s, step);
    if Found(s, item) {
      var k: nat :| k < |Listed(s, item.flag)| && Listed(s, item.flag)[k] == item.id && WillScan(s.place, item.flag, k);
      assert Listed(t, item.flag)[k] == item.id && WillScan(t.place, item.flag, k);
    }
    hide AdvanceCall;
  }

  lemma SendersFrame(s: State, step: Step)
    requires Enabled(s, step) && (step.Begin? || step.Advance?)
    ensures var t := Next(s, step);
            && t.signals == s.signals && t.asyncs == s.asyncs && t.place == s.place && s.sent <= t.sent
            && s.flags <= t.flags && t.fed == s.fed
  {
  }

  lemma WaysToTest(s: State, wait: bool, n: nat, item: Item)
    requires item in s.sent && IsListed(s, item) && item.flag in s.flags && WillTest(s.place, item.flag)
    ensures var t := AdvanceLoop(s, wait, n);
            || (t.fed == s.fed + t.fed[|s.fed|..] && item in t.fed[|s.fed|..])
            || (item in t.sent && ((item.flag in t.flags && WillTest(t.place, item.flag)) ||
                                   t.place == Scanning(item.flag, |Listed(t, item.flag)|)))
  {
    var t := AdvanceLoop(s, wait, n);
    if s.place.Taking? && t.fed != s.fed {
      assert t.fed[|s.fed|..] == [t.fed[|s.fed|]];
    }
  }

  lemma WaysToScan(s: State, wait: bool, n: nat, item: Item, k: nat)
    requires item in s.sent && k < |Listed(s, item.flag)| && Listed(s, item.flag)[k] == item.id
    requires WillScan(s.place, item.flag, k) && (s.place.Scanning? ==> s.place.n <= |Listed(s, s.place.flag)|)
    ensures var t := AdvanceLoop(s, wait, n);
            || (t.fed == s.fed + t.fed[|s.fed|..] && item in t.fed[|s.fed|..])
            || (item in t.sent && t.fed == s.fed + t.fed[|s.fed|..] && WillScan(t.place, item.flag, k))
  {
    var t := AdvanceLoop(s, wait, n);
    if s.place.Taking? && t.fed != s.fed {
      assert t.fed[|s.fed|..] == [t.fed[|s.fed|]];
    }
  }

  lemma LoopFrame(s: State, wait: bool, n: nat)
    ensures var t := AdvanceLoop(s, wait, n); t.signals == s.signals && t.asyncs == s.asyncs && s.fed <= t.fed
  {
  }

  /** What is coming goes on coming, or is taken. */
  lemma ComingStep(s: State, step: Step, item: Item)
    requires Inv(s) && Coming(s, item) && InPass(step) && Enabled(s, step)
    ensures var t := Next(s, step); s.fed <= t.fed && (Coming(t, item) || item in t.fed[|s.fed|..])
  {
    hide Inv, WillTest, WillScan, AdvanceLoop, AdvanceCall;
    var t := Next(s, step);
    if step.Loop? {
      ScanBound(s);
      LoopFrame(s, step.wait, step.n);
      if Found(s, item) {
        var k: nat :| k < |Listed(s, item.flag)| && Listed(s, item.flag)[k] == item.id && WillScan(s.place, item.flag, k);
        WaysToScan(s, step.wait, step.n, item, k);
        assert Listed(t, item.flag)[k] == item.id;
      } else {
        WaysToTest(s, step.wait, step.n, item);
        if t.place == Scanning(item.flag, |Listed(t, item.flag)|) {
          ScansAll(t, item);
        }
      }
    } else {
      SendersKeepComing(s, step, item);
    }
  }

  lemma ScansAll(s: State, item: Item)
    requires IsListed(s, item) && s.place == Scanning(item.flag, |Listed(s, item.flag)|)
    ensures Found(s, item)
  {
    var k: nat :| k < |Listed(s, item.flag)| && Listed(s, item.flag)[k] == item.id;
    assert WillScan(s.place, item.flag, k);
  }

  lemma BusyIsNotComing(s: State, item: Item)
    requires s.place.Busy?
    ensures !Coming(s, item)
  {
  }

  lemma {:induction false} ComingIsTaken(s: State, steps: seq<Step>, item: Item)
    requires Inv(s) && Coming(s, item) && Amid(s, steps)
    ensures Possible(s, steps) && s.fed <= Run(s, steps).fed && Run(s, steps).place.Busy?
    ensures item in Run(s, steps).fed[|s.fed|..]
    decreases |steps|
  {
    hide Inv, Coming, AdvanceLoop, AdvanceCall;
    ComingStep(s, steps[0], item);
    StepKeepsInv(s, steps[0]);
    var t := Next(s, steps[0]);
    if t.place.Busy? {
      BusyIsNotComing(t, item);
    } else if Coming(t, item) {
      ComingIsTaken(t, steps[1..], item);
      Later(s.fed, t.fed, Run(s, steps).fed, item);
    } else {
      AmidGrows(t, steps[1..]);
      Later(s.fed, t.fed, Run(s, steps).fed, item);
    }
  }

  lemma Later(a: seq<Item>, b: seq<Item>, c: seq<Item>, item: Item)
    requires a <= b <= c && (item in b[|a|..] || item in c[|b|..])
    ensures a <= c && item in c[|a|..]
  {
    assert c[|a|..] == b[|a|..] + c[|b|..];
  }

  lemma {:induction false} AmidGrows(s: State, steps: seq<Step>)
    requires Amid(s, steps)
    ensures Possible(s, steps) && s.fed <= Run(s, steps).fed && Run(s, steps).place.Busy?
    decreases |steps|
  {
    hide AdvanceLoop, AdvanceCall;
    GrowsInPass(s, steps[0]);
    var t := Next(s, steps[0]);
    if !t.place.Busy? {
      AmidGrows(t, steps[1..]);
    }
  }

  lemma GrowsInPass(s: State, step: Step)
    requires InPass(step) && Enabled(s, step)
    ensures s.fed <= Next(s, step).fed
  {
    if step.Loop? {
      LoopFrame(s, step.wait, step.n);
    } else {
      SendersFrame(s, step);
    }
    hide AdvanceLoop, AdvanceCall;
  }

  /** Until the loop decides, a set item stays set, and the decision is whether to enter pipecb. */
  lemma EarlyStep(s: State, step: Step, item: Item)
    requires IsSet(s, item) && Early(s.place) && InPass(step) && Enabled(s, step)
    ensures var t := Next(s, step);
            && IsSet(t, item) && t.fed == s.fed
            && (if Decides(s, step) then t.place.Busy? else Early(t.place) || t.place.Woken?)
  {
    if !step.Loop? {
      SendersFrame(s, step);
    }
    hide AdvanceCall;
  }

  lemma WokenIsComing(s: State, item: Item)
    requires IsSet(s, item) && s.place.Woken?
    ensures Coming(s, item)
  {
  }

  lemma {:induction false} NeverDecides(s: State, steps: seq<Step>)
    requires Amid(s, steps) && !Early(s.place) && !s.place.Busy?
    ensures Possible(s, steps) && !PassesBy(s, steps)
    decreases |steps|
  {
    hide AdvanceCall;
    StaysLate(s, steps[0]);
    hide AdvanceLoop;
    if !Next(s, steps[0]).place.Busy? {
      NeverDecides(Next(s, steps[0]), steps[1..]);
    }
  }

  lemma StaysLate(s: State, step: Step)
    requires InPass(step) && Enabled(s, step) && !Early(s.place) && !s.place.Busy?
    ensures !Early(Next(s, step).place)
  {
    if !step.Loop? {
      SendersFrame(s, step);
    }
    hide AdvanceCall;
  }

  lemma {:induction false} TakenUnlessPassedBy(s: State, steps: seq<Step>, item: Item)
    requires Inv(s) && IsSet(s, item) && Early(s.place) && Amid(s, steps)
    ensures Possible(s, steps) && s.fed <= Run(s, steps).fed && Run(s, steps).place.Busy?
    ensures if PassesBy(s, steps) then Run(s, steps).fed == s.fed && IsSet(Run(s, steps), item)
            else item in Run(s, steps).fed[|s.fed|..]
    decreases |steps|
  {
    hide Inv, AdvanceLoop, AdvanceCall, Coming, IsSet;
    EarlyStep(s, steps[0], item);
    StepKeepsInv(s, steps[0]);
    var t := Next(s, steps[0]);
    if t.place.Woken? {
      WokenIsComing(t, item);
      ComingIsTaken(t, steps[1..], item);
      NeverDecides(t, steps[1..]);
    } else if !t.place.Busy? {
      TakenUnlessPassedBy(t, steps[1..], item);
    }
  }

  /** What was sent before a pass, while any others send: it is taken in the pass exactly unless the
      loop decides that nobody has sent anything; then nothing is taken, and it stays set. */
  lemma PassAmidSenders(signals: seq<nat>, before: seq<Step>, steps: seq<Step>, item: Item)
    requires Possible(Init(signals), before)
    requires var s := Run(Init(signals), before);
             item in s.sent && IsListed(s, item) && !CallFor(s, item) && SharedPass(s, steps)
    ensures var s := Run(Init(signals), before);
            && Possible(s, steps)
            && var t := Run(s, steps);
               && t.place.Busy? && s.fed <= t.fed
               && (item in t.fed[|s.fed|..] <==> !PassesBy(s, steps))
               && (PassesBy(s, steps) ==> t.fed == s.fed && IsSet(t, item))
  {
    RunKeepsInv(Init(signals), before);
    var s := Run(Init(signals), before);
    FlagIsSet(s, item);
    StepKeepsInv(s, steps[0]);
    hide Inv, AdvanceCall, CallFor;
    TakenUnlessPassedBy(Next(s, steps[0]), steps[1..], item);
    hide Amid, IsSet;
  }

  /** Once its send is past the flag, a listed item that is sent has its flag set. */
  lemma FlagIsSet(s: State, item: Item)
    requires Inv(s) && s.place.Busy? && item in s.sent && IsListed(s, item) && !CallFor(s, item)
    ensures IsSet(s, item)
  {
    var k: nat :| k < |Listed(s, item.flag)| && Listed(s, item.flag)[k] == item.id;
    assert ItemSeen(s, item.flag, k);
    hide CallFor;
  }

  /** If the loop decides so although an item is set, a call is under way that has set its flag, or
      the pipe is no longer empty: the next wait will not last. */
  lemma WhyPassedBy(s: State, step: Step, item: Item)
    requires Inv(s) && IsSet(s, item) && Decides(s, step)
    ensures s.bytes > 0 || SomeCall(s, Skipping, Writing)
  {
    assert FlagSeen(s, item.flag);
    hide SomeCall;
  }

  /** All calls under way find their flag set, and return. */
  ghost predicate Harmless(s: State, flags: set<Flag>) {
    && flags <= s.flags
    && forall id | id in s.calls :: s.calls[id].stage.Checking? && s.calls[id].item.flag in flags
  }

  /** The loop will notice that something was sent. */
  predicate WillNotice(s: State) {
    match s.place
    case Deciding => s.skipped || s.bytes > 0
    case Polling(_) => s.skipped || s.bytes > 0
    case Polled(ready) => s.skipped || ready
    case Unwanted(ready) => s.skipped || ready
    case _ => false
  }

  lemma NoticeStep(s: State, step: Step, flags: set<Flag>)
    requires Harmless(s, flags) && WillNotice(s) && InPass(step) && Enabled(s, step)
    requires step.Begin? ==> step.item.flag in flags
    ensures var t := Next(s, step); !Decides(s, step) && (t.place.Woken? || (Harmless(t, flags) && WillNotice(t)))
  {
  }

  lemma {:induction false} Noticed(s: State, steps: seq<Step>, flags: set<Flag>)
    requires Harmless(s, flags) && WillNotice(s) && Amid(s, steps)
    requires forall i | 0 <= i < |steps| :: steps[i].Begin? ==> steps[i].item.flag in flags
    ensures Possible(s, steps) && !PassesBy(s, steps)
    decreases |steps|
  {
    hide AdvanceLoop, AdvanceCall, Harmless, WillNotice;
    NoticeStep(s, steps[0], flags);
    var t := Next(s, steps[0]);
    if t.place.Woken? {
      NeverDecides(t, steps[1..]);
    } else if !t.place.Busy? {
      Noticed(t, steps[1..], flags);
    }
  }

  /** If no call is under way when the loop stops being busy, and whoever sends during the pass uses a
      flag that was set then, everything that was sent before is taken. */
  lemma PassAmidLateSenders(signals: seq<nat>, before: seq<Step>, steps: seq<Step>, item: Item)
    requires Possible(Init(signals), before)
    requires var s := Run(Init(signals), before);
             && s.calls == map[] && item in s.sent && IsListed(s, item) && SharedPass(s, steps)
             && forall i | 0 <= i < |steps| :: steps[i].Begin? ==> steps[i].item.flag in s.flags
    ensures var s := Run(Init(signals), before);
            && Possible(s, steps)
            && var t := Run(s, steps); t.place.Busy? && s.fed <= t.fed && item in t.fed[|s.fed|..]
  {
    PassAmidSenders(signals, before, steps, item);
    RunKeepsInv(Init(signals), before);
    var s := Run(Init(signals), before);
    FlagIsSet(s, item);
    QuietFlag(s, item.flag);
    Noticed(Next(s, steps[0]), steps[1..], s.flags);
    hide Inv, Amid, PassesBy;
  }

  lemma PassedEarlier(s: State, step: Step, rest: seq<Step>)
    requires InPass(step) && Enabled(s, step) && !Next(s, step).place.Busy?
    requires Amid(Next(s, step), rest) && Possible(Next(s, step), rest) && PassesBy(Next(s, step), rest)
    ensures Amid(s, [step] + rest) && Possible(s, [step] + rest) && PassesBy(s, [step] + rest)
  {
    assert ([step] + rest)[1..] == rest;
    assert rest != [];
    hide AdvanceLoop, AdvanceCall;
  }

  /** With another flag this fails: a sender of the other kind takes back pipe_write_skipped, which an
      earlier one had set, and the loop decides before it has written to the pipe. */
  lemma PassedBy(s: State, id: nat, w: nat) returns (steps: seq<Step>)
    requires s.place.Busy? && s.skipped && s.bytes == 0 && s.flags == {Signals} && s.calls == map[]
    ensures SharedPass(s, steps) && Possible(s, steps) && PassesBy(s, steps)
    ensures forall i | 0 <= i < |steps| :: steps[i].Begin? ==> steps[i].item == Item(Asyncs, w)
  {
    var loop, item := Loop(false, 0), Item(Asyncs, w);
    var t := s.(wanted := true, place := Deciding);
    var u := t.(sent := t.sent + {item}, calls := map[id := Call(item, Checking)]);
    assert Next(s, loop) == t && Next(t, Begin(id, item)) == u;
    var sends, v := SendsByHalf(u, id, item);
    hide AdvanceLoop, AdvanceCall, Amid, PassesBy;
    PassedEarlier(t, Begin(id, item), sends);
    assert ([loop] + ([Begin(id, item)] + sends))[1..] == [Begin(id, item)] + sends;
    steps := [loop] + ([Begin(id, item)] + sends);
  }

  lemma RunCons(s: State, step: Step, rest: seq<Step>)
    requires Enabled(s, step) && Possible(Next(s, step), rest)
    ensures Possible(s, [step] + rest) && Run(s, [step] + rest) == Run(Next(s, step), rest)
  {
    assert ([step] + rest)[1..] == rest;
    hide AdvanceLoop, AdvanceCall;
  }

  /** A signal that comes while a new loop is busy leads to where PassedBy begins. */
  lemma SignalWhileBusy(signals: seq<nat>, id: nat, signum: nat) returns (steps: seq<Step>)
    ensures Possible(Init(signals), steps)
    ensures var s := Run(Init(signals), steps);
            && s.place.Busy? && s.skipped && s.bytes == 0 && s.flags == {Signals} && s.calls == map[]
            && s.sent == {Item(Signals, signum)} && s.signals == signals
  {
    var s, item, send := Init(signals), Item(Signals, signum), Advance(id, false);
    var s1 := s.(sent := {item}, calls := map[id := Call(item, Checking)]);
    var s2 := s1.(calls := map[id := Call(item, Setting)]);
    var s3 := s1.(flags := {Signals}, calls := map[id := Call(item, Skipping)]);
    var s4 := s3.(skipped := true, calls := map[id := Call(item, Asking)]);
    var s5 := s4.(calls := map[]);
    assert Next(s, Begin(id, item)) == s1;
    assert Next(s1, send) == s2 && Next(s2, send) == s3 && Next(s3, send) == s4 && Next(s4, send) == s5;
    assert Possible(s5, []) && Run(s5, []) == s5;
    hide AdvanceLoop, AdvanceCall, Possible, Run;
    RunCons(s4, send, []);
    RunCons(s3, send, [send] + []);
    RunCons(s2, send, [send] + ([send] + []));
    RunCons(s1, send, [send] + ([send] + ([send] + [])));
    RunCons(s, Begin(id, item), [send] + ([send] + ([send] + ([send] + []))));
    steps := [Begin(id, item)] + ([send] + ([send] + ([send] + ([send] + []))));
  }

  /** The sender goes as far as to take back pipe_write_skipped, and then the loop decides. */
  lemma SendsByHalf(s: State, id: nat, item: Item) returns (steps: seq<Step>, t: State)
    requires s.place.Deciding? && s.wanted && s.bytes == 0 && item.flag !in s.flags && s.calls == map[id := Call(item, Checking)]
    ensures Amid(s, steps) && Possible(s, steps) && PassesBy(s, steps)
    ensures forall i | 0 <= i < |steps| :: !steps[i].Begin?
  {
    var send := Advance(id, false);
    var s1 := s.(calls := map[id := Call(item, Setting)]);
    var s2 := s.(flags := s.flags + {item.flag}, calls := map[id := Call(item, Skipping)]);
    var s3 := s2.(skipped := true, calls := map[id := Call(item, Asking)]);
    var s4 := s3.(calls := map[id := Call(item, Unskipping)]);
    t := s4.(skipped := false, calls := map[id := Call(item, Writing)]);
    assert Next(s, send) == s1 && Next(s1, send) == s2 && Next(s2, send) == s3 && Next(s3, send) == s4 && Next(s4, send) == t;
    steps := DecidesTooEarly(t);
    hide AdvanceLoop, AdvanceCall, Amid, PassesBy;
    PassedEarlier(s4, send, steps);
    PassedEarlier(s3, send, [send] + steps);
    PassedEarlier(s2, send, [send] + ([send] + steps));
    PassedEarlier(s1, send, [send] + ([send] + ([send] + steps)));
    PassedEarlier(s, send, [send] + ([send] + ([send] + ([send] + steps))));
    steps := [send] + ([send] + ([send] + ([send] + ([send] + steps))));
  }

  lemma DecidingStep(s: State, step: Step)
    requires Decides(s, step) && Enabled(s, step)
    ensures Amid(s, [step]) && Possible(s, [step]) && PassesBy(s, [step])
  {
    assert Possible(Next(s, step), []);
    assert [step][0] == step && [step][1..] == [];
  }

  lemma DecidesTooEarly(s: State) returns (steps: seq<Step>)
    requires s.place.Deciding? && !s.skipped && s.bytes == 0
    ensures Amid(s, steps) && Possible(s, steps) && PassesBy(s, steps)
    ensures forall i | 0 <= i < |steps| :: steps[i].Loop?
  {
    var loop := Loop(false, 0);
    var s1, s2 := s.(place := Polling(false)), s.(place := Polled(false));
    var s3 := s.(wanted := false, place := Unwanted(false));
    assert Next(s, loop) == s1 && Next(s1, loop) == s2 && Next(s2, loop) == s3;
    DecidingStep(s3, loop);
    hide AdvanceLoop, AdvanceCall, Amid, PassesBy, Possible;
    PassedEarlier(s2, loop, [loop]);
    PassedEarlier(s1, loop, [loop] + [loop]);
    PassedEarlier(s, loop, [loop] + ([loop] + [loop]));
    steps := [loop] + ([loop] + ([loop] + [loop]));
  }

  /** How many steps the rest of a pass can take, with a signals and b async watchers. */
  function Left(p: Place, a: nat, b: nat): nat {
    match p
    case Busy => 13 + 2 * a + 2 * b
    case Deciding => 12 + 2 * a + 2 * b
    case Polling(_) => 11 + 2 * a + 2 * b
    case Polled(_) => 10 + 2 * a + 2 * b
    case Unwanted(_) => 9 + 2 * a + 2 * b
    case Woken(_) => 8 + 2 * a + 2 * b
    case Clearing => 7 + 2 * a + 2 * b
    case Testing(f) => if f.Signals? then 6 + 2 * a + 2 * b else 3 + 2 * b
    case Resetting(f) => if f.Signals? then 5 + 2 * a + 2 * b else 2 + 2 * b
    case Scanning(f, n) => if f.Signals? then 4 + 2 * n + 2 * b else 1 + 2 * n
    case Taking(f, n) => if f.Signals? then 5 + 2 * n + 2 * b else 2 + 2 * n
  }

  predicate Shrinks(s: State, t: State) {
    && |t.signals| == |s.signals| && |t.asyncs| == |s.asyncs|
    && (t.place.Busy? || Left(t.place, |s.signals|, |s.asyncs|) < Left(s.place, |s.signals|, |s.asyncs|))
  }

  lemma ScanShrinks(s: State, wait: bool, n: nat)
    requires s.place.Scanning? || s.place.Taking?
    ensures Shrinks(s, AdvanceLoop(s, wait, n))
  {
  }

  lemma StepShrinks(s: State, wait: bool, n: nat)
    requires Inv(s)
    ensures Shrinks(s, AdvanceLoop(s, wait, n))
  {
    hide Inv;
    ScanBound(s);
    if s.place.Scanning? || s.place.Taking? {
      ScanShrinks(s, wait, n);
    }
  }

  lemma ScanBound(s: State)
    requires Inv(s)
    ensures s.place.Scanning? ==> s.place.n <= |Listed(s, s.place.flag)|
    ensures s.place.Taking? ==> s.place.n < |Listed(s, s.place.flag)|
  {
  }

  /** A pass ends: its length is bounded by the number of items. */
  lemma {:induction false} PassIsShort(s: State, steps: seq<Step>)
    requires Inv(s) && Pass(s, steps)
    ensures |steps| <= Left(s.place, |s.signals|, |s.asyncs|)
    decreases |steps|
  {
    hide Inv, AdvanceLoop, Left;
    LoopKeepsInv(s, steps[0].wait, steps[0].n);
    StepShrinks(s, steps[0].wait, steps[0].n);
    LeftIsPositive(s.place, |s.signals|, |s.asyncs|);
    if !Next(s, steps[0]).place.Busy? {
      PassIsShort(Next(s, steps[0]), steps[1..]);
    }
  }

  lemma LeftIsPositive(p: Place, a: nat, b: nat)
    ensures Left(p, a, b) >= 1
  {
  }
}

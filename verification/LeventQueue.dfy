/** The queue of levent: coroutines that put and get, and the deferred callbacks that wake the
    waiting ones, in any cooperative interleaving, with timeouts and kills. */
module LeventQueue {

  /** What Loop:run_callback defers: the two unlock methods of the queue, or something else. */
  datatype Callback = PutUnlock | GetUnlock | Other

  /** What the hub does between two coroutines: nothing, or a callback. */
  datatype Hub = Idle | Running(callback: Callback)

  /** The fields of Queue; waiting coroutines are named by numbers, and a putter keeps its item.
      A maxsize of 0 stands for a queue without bound. Of the loop there are the callbacks of the
      list that is being gone through, those added since, and the references they hold. The
      history records what was put and got. */
  datatype State<T> = State(
    maxsize: nat,
    items: seq<T>,
    length: int,
    getters: set<nat>,
    putters: map<nat, T>,
    inPutUnlock: bool,
    inGetUnlock: bool,
    current: seq<Callback>,
    added: seq<Callback>,
    refs: int,
    hub: Hub,
    running: bool,           // a coroutine is running, on top of the hub
    put: seq<T>,
    got: seq<T>)

  function Init<T>(maxsize: nat): State<T> {
    State(maxsize, [], 0, {}, map[], false, false, [], [], 0, Idle, false, [], [])
  }

  // ---------- the methods of the queue ----------

  predicate IsFull<T>(s: State<T>) { s.maxsize > 0 && s.maxsize == |s.items| }

  /** Loop:run_callback. */
  function Defer<T>(s: State<T>, c: Callback): State<T> {
    s.(added := s.added + [c], refs := s.refs + 1)
  }

  /** Queue:_put. */
  function DoPut<T>(s: State<T>, item: T): State<T> {
    var t := s.(length := s.length + 1, items := s.items + [item], put := s.put + [item]);
    if !t.inGetUnlock && t.getters != {} then Defer(t.(inGetUnlock := true), GetUnlock) else t
  }

  /** Queue:_get. */
  function DoGet<T>(s: State<T>): State<T>
    requires s.items != []
  {
    var t := s.(items := s.items[1..], length := s.length - 1, got := s.got + [s.items[0]]);
    if !t.inPutUnlock && t.putters != map[] then Defer(t.(inPutUnlock := true), PutUnlock) else t
  }

  // ---------- the steps ----------

  datatype Step<T> =
    | Put(w: nat, item: T)   // the running coroutine calls put; if it has to wait, as waiter w
    | Get(w: nat)            // the running coroutine calls get
    | Yield                  // the running coroutine waits for something else, or ends
    | Schedule               // the running coroutine defers some other callback
    | Wake                   // the hub resumes a coroutine that waits for something else
    | Timeout(w: nat)        // the hub, or a deferred kill, throws an exception into waiter w
    | Callback               // the hub takes the next callback
    | Switch(w: nat)         // the loop of an unlock method resumes waiter w
    | Finish                 // the callback returns

  predicate CanPut<T>(s: State<T>) { s.maxsize == 0 || s.length < s.maxsize }

  predicate Enabled<T>(s: State<T>, step: Step<T>) {
    match step
    case Put(w, _) => s.running && w !in s.putters && w !in s.getters
    case Get(w) => s.running && w !in s.putters && w !in s.getters
    case Yield => s.running
    case Schedule => s.running
    case Wake => !s.running && s.hub.Idle?
    case Timeout(w) => !s.running && (s.hub.Idle? || s.hub == Running(Other)) && (w in s.putters || w in s.getters)
    case Callback => !s.running && s.hub.Idle? && s.current + s.added != []
    case Switch(w) =>
      !s.running && ((s.hub == Running(PutUnlock) && !IsFull(s) && w in s.putters) ||
                     (s.hub == Running(GetUnlock) && s.length != 0 && w in s.getters))
    case Finish =>
      !s.running && ((s.hub == Running(PutUnlock) && (IsFull(s) || s.putters == map[])) ||
                     (s.hub == Running(GetUnlock) && (s.length == 0 || s.getters == {})) ||
                     s.hub == Running(Other))
  }

  /** Loop:_run_callback takes the list as a whole; what is added meanwhile goes to the next one. */
  function TakeCallback<T>(s: State<T>): State<T>
    requires s.current + s.added != []
  {
    var t := if s.current == [] then s.(current := s.added, added := []) else s;
    t.(current := t.current[1..], refs := t.refs - 1, hub := Running(t.current[0]), running := t.current[0].Other?)
  }

  /** A waiter resumed by an unlock method leaves the waiters and does what it came for, without
      looking again whether it can. */
  function Resume<T>(s: State<T>, w: nat): State<T>
    requires w in s.putters || (w in s.getters && s.items != [])
  {
    var t := s.(running := true);
    if w in s.putters then DoPut(t.(putters := t.putters - {w}), s.putters[w])
    else DoGet(t.(getters := t.getters - {w}))
  }

  function Next<T>(s: State<T>, step: Step<T>): State<T>
    requires Enabled(s, step)
  {
    match step
    case Put(w, item) =>
      if CanPut(s) then DoPut(s, item) else s.(putters := s.putters[w := item], running := false)
    case Get(w) =>
      if s.length > 0 && s.items != [] then DoGet(s) else s.(getters := s.getters + {w}, running := false)
    case Yield => s.(running := false)
    case Schedule => Defer(s, Other)
    case Wake => s.(running := true)
    case Timeout(w) => s.(putters := s.putters - {w}, getters := s.getters - {w}, running := true)
    case Callback => TakeCallback(s)
    case Switch(w) => if w in s.putters || s.items != [] then Resume(s, w) else s
    case Finish =>
      if s.hub == Running(PutUnlock) then s.(inPutUnlock := false, hub := Idle)
      else if s.hub == Running(GetUnlock) then s.(inGetUnlock := false, hub := Idle)
      else s.(hub := Idle)
  }

  // ---------- the invariant ----------

  function Count(cs: seq<Callback>, c: Callback): nat {
    if cs == [] then 0 else Count(cs[..|cs|-1], c) + if cs[|cs|-1] == c then 1 else 0
  }

  /** How often c is deferred or under way. */
  function Outstanding<T>(s: State<T>, c: Callback): nat {
    Count(s.current + s.added, c) + if s.hub == Running(c) then 1 else 0
  }

  ghost predicate Inv<T>(s: State<T>) {
    && s.length == |s.items|
    && (s.maxsize > 0 ==> s.length <= s.maxsize)
    && s.got + s.items == s.put
    && (forall w | w in s.putters :: w !in s.getters)
    && (s.putters != map[] && !IsFull(s) ==> s.inPutUnlock)
    && (s.getters != {} && s.length > 0 ==> s.inGetUnlock)
    && Outstanding(s, PutUnlock) == (if s.inPutUnlock then 1 else 0)
    && Outstanding(s, GetUnlock) == (if s.inGetUnlock then 1 else 0)
    && s.refs == |s.current| + |s.added|
  }

  lemma CountSnoc(cs: seq<Callback>, ds: seq<Callback>, d: Callback, c: Callback)
    ensures Count(cs + (ds + [d]), c) == Count(cs + ds, c) + if d == c then 1 else 0
  {
    assert (cs + (ds + [d]))[..|cs + ds|] == cs + ds;
    assert cs + (ds + [d]) == cs + ds + [d];
  }

  lemma {:induction false} CountFirst(cs: seq<Callback>, c: Callback)
    requires cs != []
    ensures Count(cs, c) == Count(cs[1..], c) + if cs[0] == c then 1 else 0
    decreases |cs|
  {
    if |cs| > 1 {
      var init := cs[..|cs|-1];
      CountFirst(init, c);
      assert init[1..] == cs[1..][..|cs|-2];
    }
  }

  lemma DeferCounts<T>(s: State<T>, d: Callback, c: Callback)
    ensures Outstanding(Defer(s, d), c) == Outstanding(s, c) + if d == c then 1 else 0
  {
    CountSnoc(s.current, s.added, d, c);
  }

  lemma DoPutKeepsInv<T>(s: State<T>, item: T)
    requires Inv(s) && (s.maxsize > 0 ==> s.length < s.maxsize)
    ensures Inv(DoPut(s, item))
  {
    hide Outstanding;
    var t := s.(length := s.length + 1, items := s.items + [item], put := s.put + [item]);
    SameCallbacks(s, t);
    assert s.got + (s.items + [item]) == s.got + s.items + [item];
    if !t.inGetUnlock && t.getters != {} {
      var u := t.(inGetUnlock := true);
      SameCallbacks(s, u);
      DeferCounts(u, GetUnlock, GetUnlock);
      DeferCounts(u, GetUnlock, PutUnlock);
    }
  }

  lemma SameCallbacks<T>(s: State<T>, t: State<T>)
    requires s.current == t.current && s.added == t.added && s.hub == t.hub
    ensures forall c :: Outstanding(s, c) == Outstanding(t, c)
  {
  }

  lemma DoGetKeepsInv<T>(s: State<T>)
    requires Inv(s) && s.items != []
    ensures Inv(DoGet(s))
  {
    var t := s.(items := s.items[1..], length := s.length - 1, got := s.got + [s.items[0]], inPutUnlock := true);
    DeferCounts(t, PutUnlock, GetUnlock);
    DeferCounts(t, PutUnlock, PutUnlock);
    assert s.got + [s.items[0]] + s.items[1..] == s.got + s.items;
    hide Outstanding;
    SameCallbacks(s, t);
    SameCallbacks(s, t.(inPutUnlock := s.inPutUnlock));
  }

  lemma CallbackKeepsInv<T>(s: State<T>)
    requires Inv(s) && Enabled(s, Callback)
    ensures Inv(Next(s, Callback))
  {
    TakingCounts(s, PutUnlock);
    TakingCounts(s, GetUnlock);
    hide Outstanding;
  }

  /** The callback that is taken is under way instead of deferred. */
  lemma TakingCounts<T>(s: State<T>, c: Callback)
    requires s.hub.Idle? && s.current + s.added != []
    ensures Outstanding(TakeCallback(s), c) == Outstanding(s, c)
  {
    var t, all := TakeCallback(s), s.current + s.added;
    assert t.current + t.added == all[1..] && t.hub == Running(all[0]);
    CountFirst(all, c);
  }

  lemma SwitchKeepsInv<T>(s: State<T>, w: nat)
    requires Inv(s) && Enabled(s, Switch(w))
    ensures Inv(Next(s, Switch(w)))
  {
    if w in s.putters {
      var t := s.(running := true, putters := s.putters - {w});
      SameCallbacks(s, t);
      assert t.putters != map[] ==> s.putters != map[];
      DoPutKeepsInv(t, s.putters[w]);
    } else {
      var t := s.(running := true, getters := s.getters - {w});
      SameCallbacks(s, t);
      DoGetKeepsInv(t);
    }
  }

  lemma FinishKeepsInv<T>(s: State<T>)
    requires Inv(s) && Enabled(s, Finish)
    ensures Inv(Next(s, Finish))
  {
  }

  /** Every step of coroutines, hub and loop keeps the invariant. */
  lemma StepKeepsInv<T>(s: State<T>, step: Step<T>)
    requires Inv(s) && Enabled(s, step)
    ensures Inv(Next(s, step))
  {
    hide Outstanding;
    if step.Callback? {
      CallbackKeepsInv(s);
    } else if step.Switch? {
      SwitchKeepsInv(s, step.w);
    } else if step.Finish? {
      FinishKeepsInv(s);
    } else if step.Put? && CanPut(s) {
      DoPutKeepsInv(s, step.item);
    } else if step.Get? && s.length > 0 {
      DoGetKeepsInv(s);
    } else if step.Schedule? {
      DeferCounts(s, Other, PutUnlock);
      DeferCounts(s, Other, GetUnlock);
    } else {
      SameCallbacks(s, Next(s, step));
      assert step.Timeout? && Next(s, step).putters != map[] ==> s.putters != map[];
    }
  }

  // ---------- whole runs ----------

  predicate Possible<T>(s: State<T>, steps: seq<Step<T>>)
    decreases |steps|
  {
    steps == [] || (Enabled(s, steps[0]) && Possible(Next(s, steps[0]), steps[1..]))
  }

  function Run<T>(s: State<T>, steps: seq<Step<T>>): State<T>
    requires Possible(s, steps)
    decreases |steps|
  {
    if steps == [] then s else Run(Next(s, steps[0]), steps[1..])
  }

  lemma {:induction false} RunKeepsInv<T>(s: State<T>, steps: seq<Step<T>>)
    requires Inv(s) && Possible(s, steps)
    ensures Inv(Run(s, steps))
    decreases |steps|
  {
    if steps != [] {
      StepKeepsInv(s, steps[0]);
      RunKeepsInv(Next(s, steps[0]), steps[1..]);
    }
  }

  lemma {:induction false} RunSnoc<T>(s: State<T>, steps: seq<Step<T>>, step: Step<T>)
    requires Possible(s, steps) && Enabled(Run(s, steps), step)
    ensures Possible(s, steps + [step]) && Run(s, steps + [step]) == Next(Run(s, steps), step)
    decreases |steps|
  {
    if steps != [] {
      RunSnoc(Next(s, steps[0]), steps[1..], step);
      assert (steps + [step])[1..] == steps[1..] + [step];
    }
  }

  /** Whatever coroutines do: the length is that of the items and within the bound, items leave in
      the order in which they came, and every deferred callback holds one reference. */
  lemma QueueIsSafe<T>(maxsize: nat, steps: seq<Step<T>>)
    requires Possible(Init<T>(maxsize), steps)
    ensures var s := Run(Init<T>(maxsize), steps);
            && 0 <= s.length == |s.items| && (s.maxsize > 0 ==> s.length <= s.maxsize)
            && s.got <= s.put && s.put == s.got + s.items
            && s.refs == |s.current| + |s.added|
  {
    RunKeepsInv(Init<T>(maxsize), steps);
  }

  /** The waiters that a step adds. */
  ghost function NewWaiters<T>(s: State<T>, t: State<T>): set<nat> {
    (t.putters.Keys - s.putters.Keys) + (t.getters - s.getters)
  }

  /** A coroutine runs from when the hub resumes one, or a callback of its own is one, until it yields
      or has to wait. */
  lemma WhoRuns<T>(s: State<T>, step: Step<T>)
    requires Inv(s) && Enabled(s, step)
    ensures Next(s, step).running <==>
              || step.Wake? || step.Timeout? || step.Switch? || (step.Callback? && Next(s, step).hub == Running(Other))
              || (s.running && !step.Yield? && NewWaiters(s, Next(s, step)) == {})
    ensures !s.running ==> NewWaiters(s, Next(s, step)) == {}
  {
    hide Outstanding;
    var t := Next(s, step);
    if s.running && !t.running && !step.Yield? {
      assert step.w in NewWaiters(s, t);
    } else {
      assert t.putters.Keys <= s.putters.Keys && t.getters <= s.getters;
    }
  }

  // ---------- what becomes of a put ----------

  /** How often put was called with item x. */
  ghost function Offered<T>(steps: seq<Step<T>>, x: T): nat
    decreases |steps|
  {
    if steps == [] then 0 else (if steps[0].Put? && steps[0].item == x then 1 else 0) + Offered(steps[1..], x)
  }

  /** How often an exception ended the wait of a putter of x. */
  ghost function GivenUp<T>(s: State<T>, steps: seq<Step<T>>, x: T): nat
    requires Possible(s, steps)
    decreases |steps|
  {
    if steps == [] then 0
    else (if steps[0].Timeout? && steps[0].w in s.putters && s.putters[steps[0].w] == x then 1 else 0)
         + GivenUp(Next(s, steps[0]), steps[1..], x)
  }

  ghost function Waiting<T>(s: State<T>, x: T): set<nat> { set w | w in s.putters && s.putters[w] == x }

  /** The puts of x that are settled or wait. */
  ghost function Known<T>(s: State<T>, x: T): nat { multiset(s.put)[x] + |Waiting(s, x)| }

  lemma KnownAfterPut<T>(s: State<T>, item: T, x: T)
    ensures Known(DoPut(s, item), x) == Known(s, x) + if item == x then 1 else 0
  {
    assert Waiting(DoPut(s, item), x) == Waiting(s, x);
  }

  lemma KnownAfterLeaving<T>(s: State<T>, t: State<T>, w: nat, x: T)
    requires t.put == s.put && t.putters == s.putters - {w}
    ensures Known(t, x) == Known(s, x) - if w in s.putters && s.putters[w] == x then 1 else 0
  {
    assert Waiting(t, x) == Waiting(s, x) - {w};
  }

  lemma WaitingMore<T>(s: State<T>, w: nat, item: T, x: T)
    requires w !in s.putters
    ensures Known(s.(putters := s.putters[w := item], running := false), x) == Known(s, x) + if item == x then 1 else 0
  {
    assert Waiting(s.(putters := s.putters[w := item], running := false), x)
             == if item == x then Waiting(s, x) + {w} else Waiting(s, x);
  }

  lemma KnownFrame<T>(s: State<T>, t: State<T>, x: T)
    requires t.put == s.put && t.putters == s.putters
    ensures Known(t, x) == Known(s, x)
  {
    assert Waiting(t, x) == Waiting(s, x);
  }

  lemma StepKnows<T>(s: State<T>, step: Step<T>, x: T)
    requires Inv(s) && Enabled(s, step)
    ensures Known(Next(s, step), x) + (if step.Timeout? && step.w in s.putters && s.putters[step.w] == x then 1 else 0)
              == Known(s, x) + if step.Put? && step.item == x then 1 else 0
  {
    hide Inv, Outstanding, Known, DoPut;
    var t := Next(s, step);
    if step.Put? {
      if CanPut(s) {
        KnownAfterPut(s, step.item, x);
      } else {
        WaitingMore(s, step.w, step.item, x);
      }
    } else if step.Switch? && step.w in s.putters {
      var u := s.(running := true, putters := s.putters - {step.w});
      KnownAfterLeaving(s, u, step.w, x);
      KnownAfterPut(u, s.putters[step.w], x);
    } else if step.Timeout? {
      KnownAfterLeaving(s, t, step.w, x);
    } else {
      KnownFrame(s, t, x);
    }
  }

  /** No put is lost and none is done twice: as often as put was called with an item, it came into
      the queue, or still waits, or its wait was ended by an exception; and then it never comes. */
  lemma {:induction false} PutsAreAccountedFor<T>(s: State<T>, steps: seq<Step<T>>, x: T)
    requires Inv(s) && Possible(s, steps)
    ensures Known(Run(s, steps), x) + GivenUp(s, steps, x) == Known(s, x) + Offered(steps, x)
    decreases |steps|
  {
    hide Known, Inv, Enabled, Next;
    if steps != [] {
      StepKnows(s, steps[0], x);
      StepKeepsInv(s, steps[0]);
      PutsAreAccountedFor(Next(s, steps[0]), steps[1..], x);
    }
  }

  /** How often get was called, and how often an exception ended the wait of a getter. */
  ghost function Asked<T>(steps: seq<Step<T>>): nat
    decreases |steps|
  {
    if steps == [] then 0 else (if steps[0].Get? then 1 else 0) + Asked(steps[1..])
  }

  ghost function Abandoned<T>(s: State<T>, steps: seq<Step<T>>): nat
    requires Possible(s, steps)
    decreases |steps|
  {
    if steps == [] then 0
    else (if steps[0].Timeout? && steps[0].w in s.getters then 1 else 0) + Abandoned(Next(s, steps[0]), steps[1..])
  }

  lemma StepServes<T>(s: State<T>, step: Step<T>)
    requires Inv(s) && Enabled(s, step)
    ensures var t := Next(s, step);
            |t.got| + |t.getters| + (if step.Timeout? && step.w in s.getters then 1 else 0)
              == |s.got| + |s.getters| + if step.Get? then 1 else 0
  {
    hide Outstanding, Inv, IsFull, CanPut, DoPut, TakeCallback;
    ServableGetter(s, step);
    if step.Put? {
      PutServesNobody(s, step.item);
    } else if step.Callback? {
      CallbackServesNobody(s);
    } else if step.Switch? && step.w in s.putters {
      PutServesNobody(s.(running := true, putters := s.putters - {step.w}), s.putters[step.w]);
    }
  }

  lemma PutServesNobody<T>(s: State<T>, item: T)
    ensures DoPut(s, item).got == s.got && DoPut(s, item).getters == s.getters
  {
  }

  lemma CallbackServesNobody<T>(s: State<T>)
    requires s.current + s.added != []
    ensures TakeCallback(s).got == s.got && TakeCallback(s).getters == s.getters
  {
  }

  lemma ServableGetter<T>(s: State<T>, step: Step<T>)
    requires Inv(s) && Enabled(s, step)
    ensures s.length == |s.items| && (step.Switch? && step.w in s.putters ==> step.w !in s.getters)
  {
    hide Outstanding;
  }

  /** Every get got an item, or still waits, or its wait was ended by an exception. */
  lemma {:induction false} GetsAreAccountedFor<T>(s: State<T>, steps: seq<Step<T>>)
    requires Inv(s) && Possible(s, steps)
    ensures |Run(s, steps).got| + |Run(s, steps).getters| + Abandoned(s, steps) == |s.got| + |s.getters| + Asked(steps)
    decreases |steps|
  {
    hide Inv, Enabled, Next;
    if steps != [] {
      StepServes(s, steps[0]);
      StepKeepsInv(s, steps[0]);
      GetsAreAccountedFor(Next(s, steps[0]), steps[1..]);
    }
  }

  /** Nobody is forgotten: while a putter waits and there is room, or a getter waits and there is
      an item, an unlock method is deferred or under way, once; so when none is, putters wait only
      for room and getters only for items. */
  lemma NobodyIsForgotten<T>(maxsize: nat, steps: seq<Step<T>>)
    requires Possible(Init<T>(maxsize), steps)
    ensures var s := Run(Init<T>(maxsize), steps);
            && (s.putters != map[] && !IsFull(s) ==> Outstanding(s, PutUnlock) == 1)
            && (s.getters != {} && s.length > 0 ==> Outstanding(s, GetUnlock) == 1)
            && Outstanding(s, PutUnlock) <= 1 && Outstanding(s, GetUnlock) <= 1
            && (s.hub.Idle? && s.refs == 0 ==>
                  (s.putters != map[] ==> IsFull(s)) && (s.getters != {} ==> s.items == []))
  {
    RunKeepsInv(Init<T>(maxsize), steps);
  }

  /** A waiter that is resumed by an unlock method gets what it waited for: a putter finds room,
      a getter an item. */
  lemma ResumedInTime<T>(maxsize: nat, steps: seq<Step<T>>, w: nat)
    requires Possible(Init<T>(maxsize), steps) && Enabled(Run(Init<T>(maxsize), steps), Switch(w))
    ensures var s := Run(Init<T>(maxsize), steps);
            && (w in s.putters || (w in s.getters && s.items != []))
            && Next(s, Switch(w)) == Resume(s, w)
            && (w in s.putters ==> CanPut(s) && Resume(s, w).put == s.put + [s.putters[w]])
            && (w in s.getters ==> s.items != [] && Resume(s, w).got == s.got + [s.items[0]])
  {
    RunKeepsInv(Init<T>(maxsize), steps);
  }

  /** What a coroutine may do before it waits. */
  predicate IsAct<T>(op: Step<T>) { op.Put? || op.Get? || op.Schedule? }

  // ---------- the object ----------

  class Queue<T> {
    const maxsize: nat
    var items: seq<T>
    var length: int
    var getters: set<nat>
    var putters: map<nat, T>
    var inPutUnlock: bool
    var inGetUnlock: bool

    // what belongs to the loop and the hub
    var current: seq<Callback>
    var added: seq<Callback>
    var refs: int
    ghost var hub: Hub
    ghost var running: bool
    ghost var history: (seq<T>, seq<T>)

    ghost function View(): State<T>
      reads this
    {
      State(maxsize, items, length, getters, putters, inPutUnlock, inGetUnlock, current, added, refs, hub, running,
            history.0, history.1)
    }

    constructor (maxsize: nat)
      ensures View() == Init(maxsize)
    {
      this.maxsize := maxsize;
      items, length, getters, putters, inPutUnlock, inGetUnlock := [], 0, {}, map[], false, false;
      current, added, refs := [], [], 0;
      hub, running, history := Idle, false, ([], []);
    }

    method RunCallback(c: Callback)
      modifies this`added, this`refs
      ensures View() == Defer(old(View()), c)
    {
      added, refs := added + [c], refs + 1;
    }

    /** _put. */
    method PutNow(item: T)
      requires length == |items|
      modifies this
      ensures View() == DoPut(old(View()), item)
    {
      length := length + 1;
      items := items[..length-1] + [item];
      history := (history.0 + [item], history.1);
      if !inGetUnlock && getters != {} {
        inGetUnlock := true;
        RunCallback(GetUnlock);
      }
    }

    /** _get. */
    method GetNow() returns (item: T)
      requires length == |items| && length > 0
      modifies this
      ensures item == old(items)[0] && View() == DoGet(old(View()))
    {
      item := items[0];
      items := items[1..];
      length := length - 1;
      history := (history.0, history.1 + [item]);
      if !inPutUnlock && putters != map[] {
        inPutUnlock := true;
        RunCallback(PutUnlock);
      }
    }

    /** put, up to the point where the coroutine goes on or waits. */
    method PutOrWait(item: T, w: nat)
      requires Inv(View()) && Enabled(View(), Put(w, item))
      modifies this
      ensures View() == Next(old(View()), Put(w, item))
    {
      if maxsize == 0 || length < maxsize {
        PutNow(item);
        return;
      }
      putters := putters[w := item];
      running := false;
    }

    /** get, up to the point where the coroutine goes on or waits. */
    method GetOrWait(w: nat) returns (item: seq<T>)
      requires Inv(View()) && Enabled(View(), Get(w))
      modifies this
      ensures View() == Next(old(View()), Get(w))
      ensures item == if old(items) == [] then [] else [old(items)[0]]
    {
      if length > 0 {
        var i := GetNow();
        return [i];
      }
      getters := getters + {w};
      running := false;
      item := [];
    }

    /** One put or get of a coroutine, or a callback that it defers. */
    method Act(op: Step<T>) returns (waits: bool)
      requires Inv(View()) && IsAct(op) && Enabled(View(), op)
      modifies this
      ensures View() == Next(old(View()), op) && Inv(View()) && running == !waits && hub == old(hub)
    {
      StepKeepsInv(View(), op);
      if op.Put? {
        waits := maxsize > 0 && length >= maxsize;
        PutOrWait(op.item, op.w);
      } else if op.Schedule? {
        waits := false;
        RunCallback(Other);
      } else {
        waits := length <= 0;
        var _ := GetOrWait(op.w);
      }
    }

    /** What a resumed coroutine does until it waits again: puts and gets, and callbacks that it
        defers, such as new coroutines and kills. */
    method Continue(ops: seq<Step<T>>) returns (ghost steps: seq<Step<T>>)
      requires Inv(View()) && running
      requires forall i | 0 <= i < |ops| :: IsAct(ops[i])
      modifies this
      ensures Inv(View()) && !running && hub == old(hub)
      ensures ops == [] ==> putters == old(putters) && getters == old(getters)
      ensures Possible(old(View()), steps) && View() == Run(old(View()), steps)
    {
      hide Inv, Next;
      steps := [];
      var i := 0;
      var waits := false;
      while i < |ops| && !waits
        invariant 0 <= i <= |ops| && Inv(View()) && hub == old(hub) && running == !waits
        invariant i == 0 ==> putters == old(putters) && getters == old(getters)
        invariant Possible(old(View()), steps) && View() == Run(old(View()), steps)
      {
        if ops[i].Schedule? || (ops[i].w !in putters && ops[i].w !in getters) {
          RunSnoc(old(View()), steps, ops[i]);
          steps := steps + [ops[i]];
          waits := Act(ops[i]);
        }
        i := i + 1;
      }
      if !waits {
        StepKeepsInv(View(), Yield);
        RunSnoc(old(View()), steps, Yield);
        steps := steps + [Yield];
        PauseNow();
      }
    }

    method PauseNow()
      requires running
      modifies this`running
      ensures View() == Next(old(View()), Yield) && !running
    {
      running := false;
    }

    /** The loop body of _put_unlock: resumes a waiting putter, which goes on until it waits. */
    method SwitchPutter(w: nat, ops: seq<Step<T>>) returns (ghost steps: seq<Step<T>>)
      requires Inv(View()) && Enabled(View(), Switch(w)) && w in putters
      requires forall i | 0 <= i < |ops| :: IsAct(ops[i])
      modifies this
      ensures Inv(View()) && !running && hub == old(hub) && (ops == [] ==> putters == old(putters) - {w})
      ensures Possible(old(View()), steps) && View() == Run(old(View()), steps)
    {
      hide Inv, Outstanding;
      ghost var s := View();
      StepKeepsInv(s, Switch(w));
      var item := putters[w];
      putters := putters - {w};
      running := true;
      LengthIs(s);
      PutNow(item);
      steps := Continue(ops);
      RunCons(s, Switch(w), steps);
      steps := [Switch(w)] + steps;
    }

    /** _put_unlock: while there is room and somebody waits, a putter is resumed. What the resumed
        coroutines do is given by ops; after that they only wait. */
    method UnlockPutters(ops: seq<seq<Step<T>>>) returns (ghost steps: seq<Step<T>>)
      requires Inv(View()) && !running && hub == Running(PutUnlock)
      requires forall i, j | 0 <= i < |ops| && 0 <= j < |ops[i]| :: IsAct(ops[i][j])
      modifies this
      ensures Inv(View()) && hub.Idle? && !inPutUnlock
      ensures Possible(old(View()), steps) && View() == Run(old(View()), steps)
      ensures putters == map[] || (maxsize > 0 && |items| == maxsize)
    {
      hide Inv, Outstanding, Next;
      steps := [];
      var i := 0;
      while true
        invariant 0 <= i <= |ops| && Inv(View()) && !running && hub == Running(PutUnlock)
        invariant Possible(old(View()), steps) && View() == Run(old(View()), steps)
        decreases |ops| - i, |putters|
      {
        if (maxsize > 0 && maxsize == |items|) || putters == map[] {
          break;
        }
        var w :| w in putters;
        ghost var had, more := putters, [];
        if i < |ops| {
          more := SwitchPutter(w, ops[i]);
          i := i + 1;
        } else {
          more := SwitchPutter(w, []);
          Fewer(had, w);
        }
        RunAppend(old(View()), steps, more);
        steps := steps + more;
      }
      StepKeepsInv(View(), Finish);
      RunSnoc(old(View()), steps, Finish);
      steps := steps + [Finish];
      FinishPutUnlock();
    }

    method FinishPutUnlock()
      requires Enabled(View(), Finish) && hub == Running(PutUnlock)
      modifies this`inPutUnlock, this`hub
      ensures View() == Next(old(View()), Finish) && hub.Idle? && !inPutUnlock
    {
      inPutUnlock := false;
      hub := Idle;
    }

    /** The loop body of _get_unlock. */
    method SwitchGetter(w: nat, ops: seq<Step<T>>) returns (ghost steps: seq<Step<T>>)
      requires Inv(View()) && Enabled(View(), Switch(w)) && w in getters
      requires forall i | 0 <= i < |ops| :: IsAct(ops[i])
      modifies this
      ensures Inv(View()) && !running && hub == old(hub) && (ops == [] ==> getters == old(getters) - {w})
      ensures Possible(old(View()), steps) && View() == Run(old(View()), steps)
    {
      hide Inv, Outstanding;
      ghost var s := View();
      StepKeepsInv(s, Switch(w));
      GetterHasItem(s, w);
      getters := getters - {w};
      running := true;
      var _ := GetNow();
      steps := Continue(ops);
      RunCons(s, Switch(w), steps);
      steps := [Switch(w)] + steps;
    }

    /** _get_unlock: while there is an item and somebody waits, a getter is resumed. */
    method UnlockGetters(ops: seq<seq<Step<T>>>) returns (ghost steps: seq<Step<T>>)
      requires Inv(View()) && !running && hub == Running(GetUnlock)
      requires forall i, j | 0 <= i < |ops| && 0 <= j < |ops[i]| :: IsAct(ops[i][j])
      modifies this
      ensures Inv(View()) && hub.Idle? && !inGetUnlock
      ensures Possible(old(View()), steps) && View() == Run(old(View()), steps)
      ensures getters == {} || length == 0
    {
      hide Inv, Outstanding, Next;
      steps := [];
      var i := 0;
      while true
        invariant 0 <= i <= |ops| && Inv(View()) && !running && hub == Running(GetUnlock)
        invariant Possible(old(View()), steps) && View() == Run(old(View()), steps)
        decreases |ops| - i, getters
      {
        if length == 0 || getters == {} {
          break;
        }
        var w :| w in getters;
        ghost var more := [];
        if i < |ops| {
          more := SwitchGetter(w, ops[i]);
          i := i + 1;
        } else {
          more := SwitchGetter(w, []);
        }
        RunAppend(old(View()), steps, more);
        steps := steps + more;
      }
      StepKeepsInv(View(), Finish);
      RunSnoc(old(View()), steps, Finish);
      steps := steps + [Finish];
      FinishGetUnlock();
    }

    method FinishGetUnlock()
      requires Enabled(View(), Finish) && hub == Running(GetUnlock)
      modifies this`inGetUnlock, this`hub
      ensures View() == Next(old(View()), Finish) && hub.Idle? && !inGetUnlock
    {
      inGetUnlock := false;
      hub := Idle;
    }
  }

  lemma GetterHasItem<T>(s: State<T>, w: nat)
    requires Inv(s) && Enabled(s, Switch(w)) && w in s.getters
    ensures w !in s.putters && s.length == |s.items| > 0
  {
  }

  lemma Fewer<T>(m: map<nat, T>, w: nat)
    requires w in m
    ensures |m - {w}| < |m|
  {
    assert (m - {w}).Keys == m.Keys - {w};
  }

  lemma LengthIs<T>(s: State<T>)
    requires Inv(s)
    ensures s.length == |s.items|
  {
  }

  lemma RunCons<T>(s: State<T>, step: Step<T>, steps: seq<Step<T>>)
    requires Enabled(s, step) && Possible(Next(s, step), steps)
    ensures Possible(s, [step] + steps) && Run(s, [step] + steps) == Run(Next(s, step), steps)
  {
    assert ([step] + steps)[1..] == steps;
  }

  lemma {:induction false} RunAppend<T>(s: State<T>, steps: seq<Step<T>>, more: seq<Step<T>>)
    requires Possible(s, steps) && Possible(Run(s, steps), more)
    ensures Possible(s, steps + more) && Run(s, steps + more) == Run(Run(s, steps), more)
    decreases |steps|
  {
    hide Next, Enabled;
    if steps == [] {
      assert steps + more == more;
    } else {
      RunAppend(Next(s, steps[0]), steps[1..], more);
      assert (steps + more)[1..] == steps[1..] + more;
    }
  }
}

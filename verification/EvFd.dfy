/** How libev keeps the backend informed about descriptors: changes are only noted, and carried
    out together before the loop waits. */
module EvFd {
  import opened Common
  import opened EvPoll

  /** struct ev_io. */
  class IoWatcher {
    const fd: nat
    var events: Mask
    var active: bool

    /** ev_io_set. */
    constructor (fd: nat, events: Mask)
      ensures this.fd == fd && this.events == events | EV__IOFDSET && !active
    {
      this.fd, this.events, active := fd, events | EV__IOFDSET, false;
    }
  }

  /** struct ANFD: the watchers of a descriptor, the events the backend was told, and flags. */
  datatype Anfd = Anfd(head: seq<IoWatcher>, events: Mask, reify: Mask)

  const NOFD: Anfd := Anfd([], 0, 0)

  const IOMASK: Mask := EV_READ | EV_WRITE

  // ---------- the tables as a value ----------

  /** The tables, and the fields of the watchers. */
  datatype Tables = Tables(anfds: seq<Anfd>, fdchanges: seq<nat>, mask: map<IoWatcher, Mask>, active: set<IoWatcher>)

  /** The union of the masks of some watchers. */
  function Union(head: seq<IoWatcher>, mask: map<IoWatcher, Mask>): Mask
    requires forall w | w in head :: w in mask
  {
    if head == [] then 0 else Union(head[..|head|-1], mask) | mask[head[|head|-1]]
  }

  /** An event is in the union exactly if some watcher asks for it. */
  lemma {:induction false} UnionMeets(head: seq<IoWatcher>, mask: map<IoWatcher, Mask>, ev: Mask)
    requires forall w | w in head :: w in mask
    ensures Union(head, mask) & ev != 0 <==> exists w | w in head :: mask[w] & ev != 0
  {
    if head != [] {
      var rest, last := head[..|head|-1], head[|head|-1];
      UnionMeets(rest, mask, ev);
      OrMeets(Union(rest, mask), mask[last], ev);
      assert head == rest + [last];
    }
  }

  lemma OrMeets(a: Mask, b: Mask, ev: Mask)
    ensures (a | b) & ev != 0 <==> a & ev != 0 || b & ev != 0
  {
  }

  lemma {:induction false} UnionFrame(head: seq<IoWatcher>, mask: map<IoWatcher, Mask>, other: map<IoWatcher, Mask>)
    requires forall w | w in head :: w in mask && w in other && mask[w] == other[w]
    ensures Union(head, mask) == Union(head, other)
  {
    if head != [] {
      UnionFrame(head[..|head|-1], mask, other);
    }
  }

  /** The watchers of fd are active ones for it, each once, with masks of read and write only. */
  ghost predicate ListGood(s: Tables, fd: nat)
    requires fd < |s.anfds|
  {
    && NoDups(s.anfds[fd].head)
    && (forall w | w in s.anfds[fd].head :: w in s.mask && w in s.active && w.fd == fd && s.mask[w] & !IOMASK == 0)
  }

  ghost predicate ListsGood(s: Tables) {
    && (forall fd: nat | fd < |s.anfds| :: ListGood(s, fd))
    && (forall w | w in s.active :: w.fd < |s.anfds| && w in s.anfds[w.fd].head)
  }

  /** fdchanges lists the descriptors with reify set, each once. */
  ghost predicate ChangesGood(s: Tables) {
    && NoDups(s.fdchanges)
    && (forall fd | fd in s.fdchanges :: fd < |s.anfds| && s.anfds[fd].reify != 0)
    && (forall fd: nat | fd < |s.anfds| && s.anfds[fd].reify != 0 :: fd in s.fdchanges)
  }

  /** The events of fd are the union of the masks of its watchers. */
  ghost predicate UpToDate(s: Tables, fd: nat)
    requires fd < |s.anfds|
  {
    var head := s.anfds[fd].head;
    (forall w | w in head :: w in s.mask) && s.anfds[fd].events == Union(head, s.mask)
  }

  ghost predicate EventsGood(s: Tables) {
    && (forall fd: nat | fd < |s.anfds| && s.anfds[fd].reify == 0 :: UpToDate(s, fd))
    && (forall fd: nat | fd < |s.anfds| :: s.anfds[fd].events & !IOMASK == 0)
  }

  ghost predicate Good(s: Tables) {
    ListsGood(s) && ChangesGood(s) && EventsGood(s)
  }

  /** What the backend should ask for, by the events it was told. */
  function Told(anfds: seq<Anfd>): map<nat, bv16> {
    map fd: nat | fd < |anfds| && anfds[fd].events != 0 :: PollBits(anfds[fd].events)
  }

  function Grow(s: Tables, fd: nat): (t: Tables)
    ensures fd < |t.anfds|
  {
    if fd < |s.anfds| then s else s.(anfds := s.anfds + seq(fd + 1 - |s.anfds|, _ => NOFD))
  }

  /** fd_change. */
  function Change(s: Tables, fd: nat, flags: Mask): Tables
    requires fd < |s.anfds|
  {
    var reify := s.anfds[fd].reify;
    s.(anfds := s.anfds[fd := s.anfds[fd].(reify := reify | flags)],
       fdchanges := if reify == 0 then s.fdchanges + [fd] else s.fdchanges)
  }

  /** ev_io_start, of an inactive watcher. */
  ghost function Start(s: Tables, w: IoWatcher): Tables
    requires w in s.mask
  {
    var t := Grow(s, w.fd);
    var a := t.anfds[w.fd];
    var u := t.(anfds := t.anfds[w.fd := a.(head := [w] + a.head)], active := t.active + {w},
                mask := t.mask[w := t.mask[w] & !EV__IOFDSET]);
    Change(u, w.fd, (s.mask[w] & EV__IOFDSET) | EV_ANFD_REIFY)
  }

  /** wlist_del. */
  function Without(head: seq<IoWatcher>, w: IoWatcher): seq<IoWatcher> {
    if head == [] then [] else if head[0] == w then head[1..] else [head[0]] + Without(head[1..], w)
  }

  lemma {:induction false} WithoutIs(head: seq<IoWatcher>, w: IoWatcher)
    requires NoDups(head)
    ensures NoDups(Without(head, w))
    ensures forall v | v in Without(head, w) :: v in head && v != w
    ensures forall v | v in head && v != w :: v in Without(head, w)
  {
    if head != [] {
      var rest := head[1..];
      assert head == [head[0]] + rest;
      assert head[0] !in rest;
      WithoutIs(rest, w);
    }
  }

  /** ev_io_stop, of an active watcher. */
  ghost function Stop(s: Tables, w: IoWatcher): Tables
    requires w.fd < |s.anfds|
  {
    var a := s.anfds[w.fd];
    var u := s.(anfds := s.anfds[w.fd := a.(head := Without(a.head, w))], active := s.active - {w});
    Change(u, w.fd, EV_ANFD_REIFY)
  }

  lemma OrIsSet(a: Mask, b: Mask)
    requires b != 0
    ensures a | b != 0
  {
  }

  lemma GrowIsGood(s: Tables, fd: nat)
    requires Good(s)
    ensures Good(Grow(s, fd)) && Told(Grow(s, fd).anfds) == Told(s.anfds)
  {
    var t := Grow(s, fd);
    forall k: nat | k < |t.anfds| ensures ListGood(t, k) && t.anfds[k].events & !IOMASK == 0 {
      assert k < |s.anfds| ==> ListGood(s, k);
    }
    forall k: nat | k < |t.anfds| && t.anfds[k].reify == 0 ensures UpToDate(t, k) {
      assert k < |s.anfds| ==> UpToDate(s, k);
    }
  }

  lemma ChangeIsGood(t: Tables, fd: nat, flags: Mask)
    requires fd < |t.anfds| && flags != 0 && ListsGood(t) && ChangesGood(t)
    ensures var u := Change(t, fd, flags); ListsGood(u) && ChangesGood(u) && u.anfds[fd].reify != 0
  {
    var u := Change(t, fd, flags);
    OrIsSet(t.anfds[fd].reify, flags);
    forall k: nat | k < |u.anfds| ensures ListGood(u, k) {
      assert ListGood(t, k);
    }
  }

  /** A descriptor whose watchers have changed is noted, and everything else stays as it was. */
  lemma NoteIsGood(s: Tables, t: Tables, fd: nat, head: seq<IoWatcher>, flags: Mask)
    requires Good(s) && fd < |s.anfds| && flags != 0
    requires t.fdchanges == s.fdchanges && t.anfds == s.anfds[fd := s.anfds[fd].(head := head)]
    requires ListsGood(t)
    requires forall w | w in s.mask && w.fd != fd :: w in t.mask && t.mask[w] == s.mask[w]
    ensures Good(Change(t, fd, flags)) && Told(Change(t, fd, flags).anfds) == Told(s.anfds)
  {
    ChangeIsGood(t, fd, flags);
    var u := Change(t, fd, flags);
    hide ChangesGood, Change;
    assert forall k: nat | k < |u.anfds| :: u.anfds[k].events == s.anfds[k].events && (k != fd ==> u.anfds[k] == s.anfds[k]);
    forall k: nat | k < |u.anfds| && u.anfds[k].reify == 0 ensures UpToDate(u, k) {
      assert UpToDate(s, k) && ListGood(s, k);
      UnionFrame(s.anfds[k].head, s.mask, u.mask);
    }
  }

  lemma StartIsGood(s: Tables, w: IoWatcher)
    requires Good(s) && w in s.mask && w !in s.active && s.mask[w] & !(EV__IOFDSET | IOMASK) == 0
    ensures Good(Start(s, w)) && Told(Start(s, w).anfds) == Told(s.anfds)
  {
    GrowIsGood(s, w.fd);
    var t := Grow(s, w.fd);
    var head := [w] + t.anfds[w.fd].head;
    var u := t.(anfds := t.anfds[w.fd := t.anfds[w.fd].(head := head)], active := t.active + {w},
                mask := t.mask[w := t.mask[w] & !EV__IOFDSET]);
    forall k: nat | k < |u.anfds| ensures ListGood(u, k) {
      assert ListGood(t, k);
    }
    FlagIsSet(s.mask[w]);
    NoteIsGood(t, u, w.fd, head, (s.mask[w] & EV__IOFDSET) | EV_ANFD_REIFY);
  }

  lemma FlagIsSet(m: Mask)
    ensures (m & EV__IOFDSET) | EV_ANFD_REIFY != 0
    ensures m & !(EV__IOFDSET | IOMASK) == 0 ==> m & !EV__IOFDSET & !IOMASK == 0
  {
  }

  lemma StopIsGood(s: Tables, w: IoWatcher)
    requires Good(s) && w in s.active
    ensures w.fd < |s.anfds| && Good(Stop(s, w)) && Told(Stop(s, w).anfds) == Told(s.anfds)
  {
    var head := Without(s.anfds[w.fd].head, w);
    assert ListGood(s, w.fd);
    WithoutIs(s.anfds[w.fd].head, w);
    var u := s.(anfds := s.anfds[w.fd := s.anfds[w.fd].(head := head)], active := s.active - {w});
    forall k: nat | k < |u.anfds| ensures ListGood(u, k) {
      assert ListGood(s, k);
    }
    NoteIsGood(s, u, w.fd, head, EV_ANFD_REIFY);
  }

  // ---------- the tables in the loop ----------

  /** The first k noted descriptors have been brought up to date, nothing else has changed. */
  ghost predicate HalfReified(s: Tables, t: Tables, k: nat)
    requires k <= |s.fdchanges|
  {
    && t == s.(anfds := t.anfds) && |t.anfds| == |s.anfds|
    && (forall fd: nat | fd < |s.anfds| && fd !in s.fdchanges[..k] :: t.anfds[fd] == s.anfds[fd])
    && (forall fd: nat | fd < |s.anfds| && fd in s.fdchanges[..k] ::
          t.anfds[fd].head == s.anfds[fd].head && t.anfds[fd].reify == 0 && UpToDate(t, fd))
  }

  lemma ReifiedIsGood(s: Tables, t: Tables)
    requires Good(s) && HalfReified(s, t, |s.fdchanges|)
    ensures Good(t.(fdchanges := []))
    ensures |t.anfds| == |s.anfds|
    ensures forall fd: nat | fd < |t.anfds| :: UpToDate(t, fd) && t.anfds[fd].head == s.anfds[fd].head
  {
    var u := t.(fdchanges := []);
    forall fd: nat | fd < |u.anfds|
      ensures ListGood(u, fd) && UpToDate(u, fd) && u.anfds[fd].events & !IOMASK == 0 && u.anfds[fd].reify == 0
      ensures u.anfds[fd].head == s.anfds[fd].head
    {
      ReifiedFd(s, t, fd);
    }
    forall w | w in u.active ensures w.fd < |u.anfds| && w in u.anfds[w.fd].head {
      ReifiedFd(s, t, w.fd);
    }
  }

  lemma ReifiedFd(s: Tables, t: Tables, fd: nat)
    requires Good(s) && HalfReified(s, t, |s.fdchanges|) && fd < |s.anfds|
    ensures ListGood(t, fd) && UpToDate(t, fd) && t.anfds[fd].events & !IOMASK == 0 && t.anfds[fd].reify == 0
    ensures t.anfds[fd].head == s.anfds[fd].head
  {
    assert s.fdchanges[..|s.fdchanges|] == s.fdchanges;
    assert ListGood(s, fd);
    hide UpToDate, ListsGood;
    if fd in s.fdchanges {
      assert UpToDate(t, fd);
    } else {
      assert s.anfds[fd].reify == 0;
      assert UpToDate(s, fd);
      SameUpToDate(s, t, fd);
    }
    UpToDateIsMasked(t, fd);
  }

  lemma SameUpToDate(s: Tables, t: Tables, fd: nat)
    requires fd < |s.anfds| && fd < |t.anfds| && t.anfds[fd] == s.anfds[fd] && t.mask == s.mask && UpToDate(s, fd)
    ensures UpToDate(t, fd)
  {
  }

  lemma UpToDateIsMasked(s: Tables, fd: nat)
    requires fd < |s.anfds| && ListGood(s, fd) && UpToDate(s, fd)
    ensures s.anfds[fd].events & !IOMASK == 0
  {
    UnionIsMasked(s.anfds[fd].head, s.mask);
  }

  lemma NothingReified(s: Tables)
    ensures HalfReified(s, s, 0)
  {
  }

  lemma NextChange(s: Tables, t: Tables, k: nat)
    requires k < |s.fdchanges| && Good(s) && HalfReified(s, t, k)
    ensures var fd := s.fdchanges[k];
            && fd < |t.anfds| && t.anfds[fd] == s.anfds[fd]
            && forall w | w in t.anfds[fd].head :: w in t.mask
  {
    assert s.fdchanges[k] in s.fdchanges;
    assert ListGood(s, s.fdchanges[k]);
  }

  /** One descriptor is brought up to date. */
  lemma ReifyStep(s: Tables, t: Tables, k: nat, events: Mask)
    requires k < |s.fdchanges| && Good(s) && HalfReified(s, t, k)
    requires var fd := s.fdchanges[k];
             && fd < |t.anfds| && (forall w | w in t.anfds[fd].head :: w in t.mask)
             && events == Union(t.anfds[fd].head, t.mask)
    ensures var fd := s.fdchanges[k];
            var u := t.(anfds := t.anfds[fd := Anfd(t.anfds[fd].head, events, 0)]);
            HalfReified(s, u, k + 1)
  {
    var fd := s.fdchanges[k];
    NextChange(s, t, k);
    var u := t.(anfds := t.anfds[fd := Anfd(t.anfds[fd].head, events, 0)]);
    assert s.fdchanges[..k+1] == s.fdchanges[..k] + [fd];
    hide UpToDate;
    forall g: nat | g < |s.anfds| && g in s.fdchanges[..k+1]
      ensures u.anfds[g].head == s.anfds[g].head && u.anfds[g].reify == 0 && UpToDate(u, g)
    {
      if g == fd {
        IsUpToDate(u, fd);
      } else {
        SameUpToDate(t, u, g);
      }
    }
  }

  lemma ToldStep(anfds: seq<Anfd>, fd: nat, a: Anfd)
    requires fd < |anfds|
    ensures Told(anfds[fd := a]) ==
              if a.events == anfds[fd].events then Told(anfds)
              else if a.events != 0 then Told(anfds)[fd := PollBits(a.events)]
              else Told(anfds) - {fd}
  {
  }

  lemma IsUpToDate(s: Tables, fd: nat)
    requires fd < |s.anfds| && forall w | w in s.anfds[fd].head :: w in s.mask
    requires s.anfds[fd].events == Union(s.anfds[fd].head, s.mask)
    ensures UpToDate(s, fd)
  {
  }

  lemma {:induction false} UnionIsMasked(head: seq<IoWatcher>, mask: map<IoWatcher, Mask>)
    requires forall w | w in head :: w in mask && mask[w] & !IOMASK == 0
    ensures Union(head, mask) & !IOMASK == 0
  {
    if head != [] {
      UnionIsMasked(head[..|head|-1], mask);
      OrMasked(Union(head[..|head|-1], mask), mask[head[|head|-1]]);
    }
  }

  lemma OrMasked(a: Mask, b: Mask)
    requires a & !IOMASK == 0 && b & !IOMASK == 0
    ensures (a | b) & !IOMASK == 0
  {
  }

  /** Some active watcher of fd asks for ev. */
  ghost predicate Wanted(s: Tables, fd: nat, ev: Mask) {
    exists w | w in s.active && w in s.mask :: w.fd == fd && s.mask[w] & ev != 0
  }

  /** When no change is outstanding, poll() is asked for a descriptor's input (or output) exactly
      if some active watcher wants to read from it (or write to it). */
  lemma BackendMatchesWatchers(s: Tables, fd: nat)
    requires Good(s) && s.fdchanges == []
    ensures fd in Told(s.anfds) <==> Wanted(s, fd, IOMASK)
    ensures fd in Told(s.anfds) && Told(s.anfds)[fd] & POLLIN != 0 <==> Wanted(s, fd, EV_READ)
    ensures fd in Told(s.anfds) && Told(s.anfds)[fd] & POLLOUT != 0 <==> Wanted(s, fd, EV_WRITE)
  {
    WantedIsUnion(s, fd, IOMASK);
    WantedIsUnion(s, fd, EV_READ);
    WantedIsUnion(s, fd, EV_WRITE);
    if fd < |s.anfds| {
      BitsOf(s.anfds[fd].events);
    }
  }

  lemma BitsOf(events: Mask)
    ensures PollBits(events) & POLLIN != 0 <==> events & EV_READ != 0
    ensures PollBits(events) & POLLOUT != 0 <==> events & EV_WRITE != 0
    ensures events & !IOMASK == 0 ==> (events != 0 <==> events & IOMASK != 0)
    ensures events == 0 ==> events & EV_READ == 0 && events & EV_WRITE == 0
  {
  }

  lemma WantedIsUnion(s: Tables, fd: nat, ev: Mask)
    requires Good(s) && s.fdchanges == []
    ensures Wanted(s, fd, ev) <==> fd < |s.anfds| && s.anfds[fd].events & ev != 0
  {
    if fd < |s.anfds| {
      assert ListGood(s, fd) && UpToDate(s, fd);
      UnionMeets(s.anfds[fd].head, s.mask, ev);
    }
  }

  function Meet(a: Mask, b: Mask): Mask { a & b }

  /** What fd_event queues for the watchers of a descriptor. */
  function Fed(head: seq<IoWatcher>, mask: map<IoWatcher, Mask>, revents: Mask): seq<(IoWatcher, Mask)>
    requires forall w | w in head :: w in mask
  {
    if head == [] then []
    else
      var last := head[|head|-1];
      Fed(head[..|head|-1], mask, revents) +
      if Meet(mask[last], revents) != 0 then [(last, Meet(mask[last], revents))] else []
  }

  lemma {:induction false} FedIs(head: seq<IoWatcher>, mask: map<IoWatcher, Mask>, revents: Mask, w: IoWatcher, ev: Mask)
    requires forall w | w in head :: w in mask
    ensures (w, ev) in Fed(head, mask, revents) <==> w in head && ev == Meet(mask[w], revents) && ev != 0
  {
    hide Meet;
    if head != [] {
      FedIs(head[..|head|-1], mask, revents, w, ev);
      assert head == head[..|head|-1] + [head[|head|-1]];
    }
  }

  lemma {:induction false} FedOnce(head: seq<IoWatcher>, mask: map<IoWatcher, Mask>, revents: Mask)
    requires NoDups(head) && forall w | w in head :: w in mask
    ensures forall i, j | 0 <= i < j < |Fed(head, mask, revents)| ::
              Fed(head, mask, revents)[i].0 != Fed(head, mask, revents)[j].0
  {
    if head != [] {
      var rest, last := head[..|head|-1], head[|head|-1];
      FedOnce(rest, mask, revents);
      forall e | e in Fed(rest, mask, revents) ensures e.0 != last {
        FedIs(rest, mask, revents, e.0, e.1);
      }
    }
  }

  /** An event is queued once for each active watcher of the descriptor that asks for it. */
  lemma EventReachesWatchers(s: Tables, fd: nat, revents: Mask, w: IoWatcher, ev: Mask)
    requires Good(s) && fd < |s.anfds|
    ensures var head := s.anfds[fd].head;
            && (forall v | v in head :: v in s.mask)
            && ((w, ev) in Fed(head, s.mask, revents) <==>
                w in s.active && w.fd == fd && ev == s.mask[w] & revents && ev != 0)
            && forall i, j | 0 <= i < j < |Fed(head, s.mask, revents)| ::
                 Fed(head, s.mask, revents)[i].0 != Fed(head, s.mask, revents)[j].0
  {
    assert ListGood(s, fd);
    FedIs(s.anfds[fd].head, s.mask, revents, w, ev);
    assert forall m: Mask :: Meet(m, revents) == m & revents;
    FedOnce(s.anfds[fd].head, s.mask, revents);
  }

  class Fds {
    var anfds: seq<Anfd>
    var fdchanges: seq<nat>
    const backend: Poll
    ghost const ws: set<IoWatcher>

    ghost function View(): Tables
      reads this`anfds, this`fdchanges, ws
    {
      Tables(anfds, fdchanges, map w | w in ws :: w.events, set w | w in ws && w.active)
    }

    /** The tables are good, and the backend asks for the events it was told. */
    ghost predicate Valid()
      reads this`anfds, this`fdchanges, ws, backend
    {
      Good(View()) && backend.Valid() && backend.Watched() == Told(anfds)
    }

    constructor (ghost ws: set<IoWatcher>)
      requires forall w | w in ws :: !w.active
      ensures Valid() && this.ws == ws && fresh(backend)
    {
      anfds, fdchanges, this.ws := [], [], ws;
      backend := new Poll();
    }

    /** array_needsize with array_init_zero. */
    method NeedFd(fd: nat)
      modifies this`anfds
      ensures View() == Grow(old(View()), fd)
    {
      if fd >= |anfds| {
        anfds := anfds + seq(fd + 1 - |anfds|, _ => NOFD);
      }
    }

    /** fd_change. */
    method FdChange(fd: nat, flags: Mask)
      requires fd < |anfds|
      modifies this`anfds, this`fdchanges
      ensures View() == Change(old(View()), fd, flags)
    {
      var reify := anfds[fd].reify;
      anfds := anfds[fd := anfds[fd].(reify := reify | flags)];
      if reify == 0 {
        fdchanges := fdchanges + [fd];
      }
    }

    twostate lemma WatcherStarted(w: IoWatcher)
      requires w in ws && w.active && w.events == old(w.events) & !EV__IOFDSET
      requires forall v | v in ws && v != w :: v.active == old(v.active) && v.events == old(v.events)
      ensures View().active == old(View()).active + {w}
      ensures View().mask == old(View()).mask[w := w.events]
    {
    }

    /** ev_io_start. */
    method IoStart(w: IoWatcher)
      requires Valid() && w in ws && w.events & !(EV__IOFDSET | IOMASK) == 0
      modifies this`anfds, this`fdchanges, w
      ensures Valid()
      ensures View() == if old(w.active) then old(View()) else Start(old(View()), w)
    {
      if w.active {
        return;
      }
      ghost var s := View();
      StartIsGood(s, w);
      hide Good, Told, Grow, Change;
      NeedFd(w.fd);
      var flags := (w.events & EV__IOFDSET) | EV_ANFD_REIFY;
      Enter(w);
      FdChange(w.fd, flags);
    }

    /** ev_start and wlist_add: the watcher becomes active and comes to the head of its list. */
    method Enter(w: IoWatcher)
      requires w in ws && w.fd < |anfds|
      modifies this`anfds, w
      ensures View() == var s := old(View());
                        var a := s.anfds[w.fd];
                        s.(anfds := s.anfds[w.fd := a.(head := [w] + a.head)], active := s.active + {w},
                           mask := s.mask[w := s.mask[w] & !EV__IOFDSET])
    {
      w.active := true;
      anfds := anfds[w.fd := anfds[w.fd].(head := [w] + anfds[w.fd].head)];
      w.events := w.events & !EV__IOFDSET;
      WatcherStarted(w);
    }

    /** ev_io_stop. */
    method IoStop(w: IoWatcher)
      requires Valid() && w in ws
      modifies this`anfds, this`fdchanges, w`active
      ensures Valid()
      ensures View() == if !old(w.active) then old(View()) else Stop(old(View()), w)
    {
      if !w.active {
        return;
      }
      ghost var s := View();
      StopIsGood(s, w);
      hide Good, Told;
      anfds := anfds[w.fd := anfds[w.fd].(head := Without(anfds[w.fd].head, w))];
      w.active := false;
      assert View().active == s.active - {w} && View().mask == s.mask;
      FdChange(w.fd, EV_ANFD_REIFY);
    }

    /** The inner loop of fd_reify. */
    method CollectEvents(fd: nat) returns (events: Mask)
      requires fd < |anfds| && forall w | w in anfds[fd].head :: w in ws
      ensures events == Union(anfds[fd].head, View().mask)
    {
      var head := anfds[fd].head;
      events := 0;
      for j := 0 to |head|
        invariant events == Union(head[..j], View().mask)
      {
        events := events | head[j].events;
        assert head[..j+1][..j] == head[..j];
      }
      assert head[..|head|] == head;
    }

    /** The loop body of fd_reify. */
    method ReifyFd(fd: nat)
      requires fd < |anfds| && forall w | w in anfds[fd].head :: w in ws
      requires backend.Valid() && backend.Watched() == Told(anfds)
      modifies this`anfds, backend
      ensures var s := old(View()); var head := s.anfds[fd].head;
              View() == s.(anfds := s.anfds[fd := Anfd(head, Union(head, s.mask), 0)])
      ensures backend.Valid() && backend.Watched() == Told(anfds)
    {
      hide Told;
      ghost var s := View();
      var o_events, o_reify := anfds[fd].events, anfds[fd].reify;
      var events := CollectEvents(fd);
      var a := Anfd(anfds[fd].head, events, 0);
      ToldStep(anfds, fd, a);
      anfds := anfds[fd := a];
      assert View() == s.(anfds := anfds);
      if o_events != events {
        o_reify := EV__IOFDSET;
      }
      if o_reify & EV__IOFDSET != 0 {
        backend.Modify(fd, o_events, events);
      }
    }

    /** fd_reify: afterwards the backend asks for exactly the union of the masks of the watchers
        of every descriptor. */
    method FdReify()
      requires Valid()
      modifies this`anfds, this`fdchanges, backend
      ensures Valid() && fdchanges == [] && |anfds| == |old(anfds)|
      ensures forall fd: nat | fd < |anfds| :: UpToDate(View(), fd) && anfds[fd].head == old(anfds[fd].head)
    {
      ghost var s := View();
      NothingReified(s);
      hide Good, HalfReified, Told, UpToDate;
      for i := 0 to |fdchanges|
        invariant fdchanges == s.fdchanges && HalfReified(s, View(), i)
        invariant backend.Valid() && backend.Watched() == Told(anfds)
      {
        NextChange(s, View(), i);
        ReifyStep(s, View(), i, Union(anfds[fdchanges[i]].head, View().mask));
        ReifyFd(fdchanges[i]);
      }
      ReifiedIsGood(s, View());
      ghost var t := View();
      fdchanges := [];
      assert View() == t.(fdchanges := []);
      forall fd: nat | fd < |anfds| ensures UpToDate(View(), fd) {
        SameUpToDate(t, View(), fd);
      }
    }

    /** fd_event: what the backend reports about a descriptor with an outstanding change is
        dropped, anything else reaches the watchers. */
    method FdEvent(fd: nat, revents: Mask) returns (fed: seq<(IoWatcher, Mask)>)
      requires Valid() && fd < |anfds|
      ensures forall w | w in anfds[fd].head :: w in View().mask
      ensures fed == if anfds[fd].reify != 0 then [] else Fed(anfds[fd].head, View().mask, revents)
    {
      assert ListGood(View(), fd);
      fed := [];
      if anfds[fd].reify != 0 {
        return;
      }
      var head := anfds[fd].head;
      for j := 0 to |head|
        invariant fed == Fed(head[..j], View().mask, revents)
      {
        var ev := head[j].events & revents;
        assert head[..j+1][..j] == head[..j];
        if ev != 0 {
          fed := fed + [(head[j], ev)];
        }
      }
      assert head[..|head|] == head;
    }
  }
}

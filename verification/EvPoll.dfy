/** The poll backend of libev: a dense array of descriptors for poll() and the index of every
    descriptor in it. */
module EvPoll {

  /** Masks of EV_READ and EV_WRITE, and the flags kept with them. */
  type Mask = bv8

  const EV_READ: Mask := 0x01
  const EV_WRITE: Mask := 0x02
  const EV__IOFDSET: Mask := 0x80
  const EV_ANFD_REIFY: Mask := 0x01

  const POLLIN: bv16 := 0x1
  const POLLOUT: bv16 := 0x4

  /** struct pollfd. */
  datatype Pollfd = Pollfd(fd: nat, events: bv16)

  function PollBits(ev: Mask): bv16 {
    (if ev & EV_READ != 0 then POLLIN else 0) | (if ev & EV_WRITE != 0 then POLLOUT else 0)
  }

  lemma SameElsewhere<K, V>(m: map<K, V>, n: map<K, V>, k: K, v: V)
    requires m - {k} == n - {k}
    ensures m[k := v] == n[k := v]
  {
    assert forall j | j != k :: j in m <==> j in m - {k};
    assert forall j | j != k :: j in n <==> j in n - {k};
    assert forall j | j in m && j != k :: m[j] == (m - {k})[j] == (n - {k})[j] == n[j];
  }

  class Poll {
    var polls: seq<Pollfd>
    var pollidxs: seq<int>

    /** polls and pollidxs are inverse to each other. */
    ghost predicate Valid()
      reads this
    {
      && (forall i: nat | i < |polls| :: polls[i].fd < |pollidxs| && pollidxs[polls[i].fd] == i)
      && (forall fd: nat | fd < |pollidxs| && pollidxs[fd] >= 0 ::
            pollidxs[fd] < |polls| && polls[pollidxs[fd]].fd == fd)
    }

    /** The descriptors that poll() is asked about, with the events asked for. */
    ghost function Watched(): map<nat, bv16>
      requires Valid()
      reads this
    {
      map fd: nat | fd < |pollidxs| && pollidxs[fd] >= 0 :: polls[pollidxs[fd]].events
    }

    constructor ()
      ensures Valid() && Watched() == map[]
    {
      polls, pollidxs := [], [];
    }

    /** array_needsize with pollidx_init: new indices are -1. */
    method NeedIndex(fd: nat)
      requires Valid()
      modifies this`pollidxs
      ensures Valid() && fd < |pollidxs| && Watched() == old(Watched())
    {
      if fd >= |pollidxs| {
        ghost var had := pollidxs;
        pollidxs := pollidxs + seq(fd + 1 - |pollidxs|, _ => -1);
        assert forall k: nat | k < |had| :: pollidxs[k] == had[k];
      }
    }

    /** The first half of poll_modify: the descriptor gets a slot if it has none. */
    method NeedSlot(fd: nat) returns (idx: nat)
      requires Valid() && fd < |pollidxs|
      modifies this
      ensures Valid() && |pollidxs| == old(|pollidxs|) && idx < |polls| && polls[idx].fd == fd
      ensures fd in Watched() && Watched() - {fd} == old(Watched()) - {fd}
    {
      if pollidxs[fd] < 0 {
        idx := |polls|;
        pollidxs := pollidxs[fd := idx];
        polls := polls + [Pollfd(fd, 0)];
      } else {
        idx := pollidxs[fd];
      }
    }

    /** The removal of a slot: the last one takes its place. */
    method DropSlot(fd: nat, idx: nat)
      requires Valid() && idx < |polls| && polls[idx].fd == fd
      modifies this
      ensures Valid() && Watched() == old(Watched()) - {fd}
    {
      pollidxs := pollidxs[fd := -1];
      var last := |polls| - 1;
      if idx < last {
        polls := polls[idx := polls[last]];
        pollidxs := pollidxs[polls[idx].fd := idx];
      }
      polls := polls[..last];
    }

    /** poll_modify: afterwards poll() asks for the new events, and for nothing if there are none. */
    method Modify(fd: nat, oev: Mask, nev: Mask)
      requires Valid()
      modifies this
      ensures Valid()
      ensures Watched() == if oev == nev then old(Watched())
                           else if nev != 0 then old(Watched())[fd := PollBits(nev)]
                           else old(Watched()) - {fd}
    {
      if oev == nev {
        return;
      }
      NeedIndex(fd);
      var idx := NeedSlot(fd);
      if nev != 0 {
        ghost var had := Watched();
        polls := polls[idx := polls[idx].(events := PollBits(nev))];
        assert Watched() == had[fd := PollBits(nev)];
        SameElsewhere(had, old(Watched()), fd, PollBits(nev));
      } else {
        DropSlot(fd, idx);
      }
    }
  }
}

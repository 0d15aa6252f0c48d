/** The timer heap in place: watchers know their slot, slots cache the time of their watcher. */
module EvTimers {
  import opened EvHeap
  import opened EvWatcher

  type Entries = seq<Anhe<Watcher?>>

  ghost function Members(s: Entries, n: nat): set<Watcher?>
    requires HEAP0 + n <= |s|
  {
    set i: nat | HEAP0 <= i < HEAP0 + n :: s[i].w
  }

  ghost function EntrySet(s: Entries, n: nat): set<Anhe<Watcher?>>
    requires HEAP0 + n <= |s|
  {
    set i: nat | HEAP0 <= i < HEAP0 + n :: s[i]
  }

  lemma MembersOfEntries(s: Entries, t: Entries, n: nat)
    requires HEAP0 + n <= |s| && HEAP0 + n <= |t| && EntrySet(s, n) == EntrySet(t, n)
    ensures Members(s, n) == Members(t, n)
  {
    forall w | w in Members(s, n) ensures w in Members(t, n) {
      var i: nat :| HEAP0 <= i < HEAP0 + n && s[i].w == w;
      assert s[i] in EntrySet(t, n);
    }
    forall w | w in Members(t, n) ensures w in Members(s, n) {
      var i: nat :| HEAP0 <= i < HEAP0 + n && t[i].w == w;
      assert t[i] in EntrySet(s, n);
    }
  }

  /** The first n slots hold watchers, each once. */
  ghost predicate Distinct(s: Entries, n: nat)
    requires HEAP0 + n <= |s|
  {
    && (forall i: nat | HEAP0 <= i < HEAP0 + n :: s[i].w != null)
    && (forall i: nat, j: nat | HEAP0 <= i < j < HEAP0 + n :: s[i].w != s[j].w)
  }

  lemma SwapKeepsMembers(s: Entries, n: nat, i: nat, j: nat)
    requires HEAP0 + n <= |s| && HEAP0 <= i < HEAP0 + n && HEAP0 <= j < HEAP0 + n && Distinct(s, n)
    ensures var t := Swap(s, i, j);
            Distinct(t, n) && EntrySet(t, n) == EntrySet(s, n) && Members(t, n) == Members(s, n)
  {
    var t := Swap(s, i, j);
    assert t[i] == s[j] && t[j] == s[i];
    forall e | e in EntrySet(s, n) ensures e in EntrySet(t, n) {
      var k: nat :| HEAP0 <= k < HEAP0 + n && s[k] == e;
      assert t[if k == i then j else if k == j then i else k] == e;
    }
    MembersOfEntries(s, t, n);
  }

  /** Up and down, the heap keeps its entries. */
  ghost predicate KeepsEntries(s: Entries, t: Entries, n: nat)
    requires HEAP0 + n <= |s|
  {
    |t| == |s| && Distinct(t, n) && EntrySet(t, n) == EntrySet(s, n) && Members(t, n) == Members(s, n)
  }

  lemma {:induction false} UpHeapKeepsMembers(s: Entries, n: nat, k: nat)
    requires HEAP0 <= k < HEAP0 + n <= |s| && Distinct(s, n)
    ensures KeepsEntries(s, UpHeap(s, k), n)
    decreases k
  {
    hide Swap;
    var p := Parent(k);
    if p != k && s[p].at > s[k].at {
      SwapKeepsMembers(s, n, k, p);
      UpHeapKeepsMembers(Swap(s, k, p), n, p);
    }
  }

  lemma {:induction false} DownHeapKeepsMembers(s: Entries, n: nat, k: nat)
    requires HEAP0 <= k < HEAP0 + n <= |s| && Distinct(s, n)
    ensures KeepsEntries(s, DownHeap(s, n, k), n)
    decreases HEAP0 + n - k
  {
    hide Swap;
    if FirstChild(k) < HEAP0 + n {
      var c := MinChild(s, n, k);
      if s[k].at > s[c].at {
        SwapKeepsMembers(s, n, k, c);
        DownHeapKeepsMembers(Swap(s, k, c), n, c);
      }
    }
  }

  lemma AdjustHeapKeepsMembers(s: Entries, n: nat, k: nat)
    requires HEAP0 <= k < HEAP0 + n <= |s| && Distinct(s, n)
    ensures KeepsEntries(s, AdjustHeap(s, n, k), n)
  {
    UpHeapKeepsMembers(s, n, k);
    DownHeapKeepsMembers(s, n, k);
  }

  // ---------- adding, removing and changing an entry ----------

  lemma SameOrder(s: Entries, t: Entries, n: nat)
    requires HEAP0 + n <= |s| && HEAP0 + n <= |t| && Heap(s, n)
    requires forall i: nat | HEAP0 <= i < HEAP0 + n :: s[i] == t[i]
    ensures Heap(t, n)
  {
    forall i: nat | HEAP0 <= i < HEAP0 + n ensures InOrder(t, i) {
      assert InOrder(s, i);
    }
  }

  /** Appending an entry behind the first n. */
  lemma AppendEntry(s: Entries, t: Entries, n: nat)
    requires HEAP0 + n <= |s| && HEAP0 + n < |t| && Distinct(s, n)
    requires forall i: nat | HEAP0 <= i < HEAP0 + n :: s[i] == t[i]
    requires t[HEAP0 + n].w != null && t[HEAP0 + n].w !in Members(s, n)
    ensures Distinct(t, n + 1) && EntrySet(t, n + 1) == EntrySet(s, n) + {t[HEAP0 + n]}
  {
    var e := t[HEAP0 + n];
    forall i: nat | HEAP0 <= i < HEAP0 + n ensures t[i].w != null && t[i].w != e.w {
      assert s[i].w in Members(s, n);
    }
    forall x | x in EntrySet(s, n) + {e} ensures x in EntrySet(t, n + 1) {
      if x == e {
        assert t[HEAP0 + n] == x;
      } else {
        var i: nat :| HEAP0 <= i < HEAP0 + n && s[i] == x;
        assert t[i] == x;
      }
    }
    forall x | x in EntrySet(t, n + 1) ensures x in EntrySet(s, n) + {e} {
      var i: nat :| HEAP0 <= i < HEAP0 + n + 1 && t[i] == x;
      assert i < HEAP0 + n ==> s[i] == x;
    }
  }

  /** Adding an entry keeps the heap. */
  lemma AddEntry(s: Entries, t: Entries, n: nat)
    requires HEAP0 + n <= |s| && HEAP0 + n < |t| && Distinct(s, n) && Heap(s, n)
    requires forall i: nat | HEAP0 <= i < HEAP0 + n :: s[i] == t[i]
    requires t[HEAP0 + n].w != null && t[HEAP0 + n].w !in Members(s, n)
    ensures var r := UpHeap(t, HEAP0 + n);
            Heap(r, n + 1) && Distinct(r, n + 1) && EntrySet(r, n + 1) == EntrySet(s, n) + {t[HEAP0 + n]}
  {
    hide Heap, EntrySet, UpHeap, Distinct, Members, HeapBut;
    AppendEntry(s, t, n);
    SameOrder(s, t, n);
    NewestIsLeaf(t, n + 1);
    UpHeapOrders(t, n + 1, HEAP0 + n);
    UpHeapKeepsMembers(t, n + 1, HEAP0 + n);
  }

  /** Removing the entry in slot k: the last entry takes its place. */
  function Removed(s: Entries, n: nat, k: nat): (t: Entries)
    requires HEAP0 <= k < HEAP0 + n <= |s|
    ensures |t| == |s|
  {
    if k < HEAP0 + n - 1 then AdjustHeap(s[k := s[HEAP0 + n - 1]], n - 1, k) else s
  }

  lemma DropEntry(s: Entries, t: Entries, n: nat, k: nat)
    requires HEAP0 <= k < HEAP0 + n <= |s| && Distinct(s, n) && t == s[k := s[HEAP0 + n - 1]]
    ensures Distinct(t, n - 1) && EntrySet(t, n - 1) == EntrySet(s, n) - {s[k]}
    ensures s[k].w !in Members(t, n - 1)
  {
    var last := HEAP0 + n - 1;
    assert forall i: nat | HEAP0 <= i < last :: t[i] == if i == k then s[last] else s[i];
    forall e | e in EntrySet(s, n) - {s[k]} ensures e in EntrySet(t, n - 1) {
      var i: nat :| HEAP0 <= i < HEAP0 + n && s[i] == e;
      assert t[if i == last then k else i] == e;
    }
    forall e | e in EntrySet(t, n - 1) ensures e in EntrySet(s, n) - {s[k]} {
      var i: nat :| HEAP0 <= i < last && t[i] == e;
      assert s[if i == k then last else i] == e;
    }
  }

  /** Removing an entry keeps the heap. */
  lemma RemoveEntry(s: Entries, n: nat, k: nat)
    requires HEAP0 <= k < HEAP0 + n <= |s| && Distinct(s, n) && Heap(s, n)
    ensures var t := Removed(s, n, k);
            && Distinct(t, n - 1) && Heap(t, n - 1)
            && EntrySet(t, n - 1) == EntrySet(s, n) - {s[k]} && s[k].w !in Members(t, n - 1)
  {
    hide EntrySet, AdjustHeap, Distinct, Members, HeapBut;
    var t := s[k := s[HEAP0 + n - 1]];
    DropEntry(s, t, n, k);
    if k < HEAP0 + n - 1 {
      ShorterHeap(s, n);
      ReplacedHeap(s, t, n - 1, k);
      AdjustHeapKeepsMembers(t, n - 1, k);
      AdjustHeapOrders(t, n - 1, k);
    } else {
      assert t == s;
      ShorterHeap(s, n);
    }
  }

  lemma ShorterHeap(s: Entries, n: nat)
    requires 0 < n && HEAP0 + n <= |s| && Heap(s, n)
    ensures Heap(s, n - 1)
  {
  }

  /** Replacing one entry of a heap spoils the order only around it. */
  lemma ReplacedHeap(s: Entries, t: Entries, n: nat, k: nat)
    requires HEAP0 <= k < HEAP0 + n <= |s| == |t| && Heap(s, n)
    requires forall i: nat | HEAP0 <= i < HEAP0 + n && i != k :: t[i] == s[i]
    ensures HeapBut(t, n, k)
  {
    forall i: nat | HEAP0 <= i < HEAP0 + n && i != k && Parent(i) != k ensures InOrder(t, i) {
      assert InOrder(s, i);
    }
    forall i: nat | HEAP0 < i < HEAP0 + n && Parent(i) == k && k != HEAP0 ensures t[Parent(k)].at <= t[i].at {
      assert InOrder(s, i) && InOrder(s, k);
    }
  }

  lemma SetEntry(s: Entries, t: Entries, n: nat, k: nat, at: real)
    requires HEAP0 <= k < HEAP0 + n <= |s| && Distinct(s, n) && t == s[k := Anhe(s[k].w, at)]
    ensures Distinct(t, n) && EntrySet(t, n) == EntrySet(s, n) - {s[k]} + {t[k]}
  {
    assert forall i: nat | HEAP0 <= i < HEAP0 + n && i != k :: t[i] == s[i] && s[i].w != s[k].w;
    forall e | e in EntrySet(s, n) - {s[k]} + {t[k]} ensures e in EntrySet(t, n) {
      if e != t[k] {
        var i: nat :| HEAP0 <= i < HEAP0 + n && s[i] == e;
        assert t[i] == e;
      }
    }
    forall e | e in EntrySet(t, n) ensures e in EntrySet(s, n) - {s[k]} + {t[k]} {
      var i: nat :| HEAP0 <= i < HEAP0 + n && t[i] == e;
      assert i != k ==> s[i] == e;
    }
  }

  /** Changing the time of an entry and adjusting keeps the heap. */
  lemma ChangeEntry(s: Entries, t: Entries, n: nat, k: nat, at: real)
    requires HEAP0 <= k < HEAP0 + n <= |s| && Distinct(s, n) && Heap(s, n) && t == s[k := Anhe(s[k].w, at)]
    ensures var r := AdjustHeap(t, n, k);
            && Distinct(r, n) && Heap(r, n) && Members(r, n) == Members(s, n)
            && EntrySet(r, n) == EntrySet(s, n) - {s[k]} + {t[k]}
  {
    hide EntrySet, AdjustHeap, Distinct, Members, HeapBut;
    SetEntry(s, t, n, k, at);
    assert Members(t, n) == Members(s, n) by { SameWatchers(s, t, n); }
    ReplacedHeap(s, t, n, k);
    AdjustHeapOrders(t, n, k);
    AdjustHeapKeepsMembers(t, n, k);
  }

  /** Every watcher in the first n slots, except perhaps the one in slot k, knows its slot. */
  ghost predicate IndexedBut(s: Entries, n: nat, k: nat)
    requires HEAP0 + n <= |s| && Distinct(s, n)
    reads Members(s, n)`active
  {
    forall i: nat | HEAP0 <= i < HEAP0 + n && i != k :: s[i].w.active == i
  }

  ghost predicate Indexed(s: Entries, n: nat)
    requires HEAP0 + n <= |s| && Distinct(s, n)
    reads Members(s, n)`active
  {
    forall i: nat | HEAP0 <= i < HEAP0 + n :: s[i].w.active == i
  }

  lemma SameWatchers(s: Entries, t: Entries, n: nat)
    requires HEAP0 + n <= |s| == |t| && forall i: nat | HEAP0 <= i < HEAP0 + n :: s[i].w == t[i].w
    ensures Members(s, n) == Members(t, n)
  {
    forall i: nat | HEAP0 <= i < HEAP0 + n ensures s[i].w in Members(t, n) && t[i].w in Members(s, n) {
      assert t[i].w == s[i].w;
    }
  }

  lemma SetEntryIndexed(s: Entries, t: Entries, n: nat, k: nat)
    requires HEAP0 <= k < HEAP0 + n <= |s| == |t| && Distinct(s, n) && t == s[k := Anhe(s[k].w, t[k].at)] && Indexed(s, n)
    ensures Distinct(t, n) && Indexed(t, n) && Members(t, n) == Members(s, n)
  {
    assert forall i: nat | HEAP0 <= i < HEAP0 + n :: t[i].w == s[i].w;
  }

  /** One turn of the loops of upheap and downheap: the entry of slot c moves to slot k, and the
      entry held back, he, would now go to c. */
  method MoveEntry(heap: array<Anhe<Watcher?>>, ghost n: nat, k: nat, c: nat, ghost he: Anhe<Watcher?>)
    requires HEAP0 <= k < HEAP0 + n <= heap.Length && HEAP0 <= c < HEAP0 + n && k != c
    requires Distinct(heap[..][k := he], n) && IndexedBut(heap[..][k := he], n, k)
    modifies heap, Members(heap[..][k := he], n)`active
    ensures heap[..][c := he] == Swap(old(heap[..])[k := he], k, c)
    ensures var s := heap[..][c := he];
            && Distinct(s, n) && IndexedBut(s, n, c) && Members(s, n) == Members(old(heap[..])[k := he], n)
  {
    ghost var s := heap[..][k := he];
    SwapKeepsMembers(s, n, k, c);
    assert s[c].w in Members(s, n);
    heap[k] := heap[c];
    heap[k].w.active := k;
    assert heap[..][c := he] == Swap(s, k, c);
  }

  /** upheap: the entry of slot k0 is held back while its ancestors move down. */
  method UpHeapInPlace(heap: array<Anhe<Watcher?>>, ghost n: nat, k0: nat)
    requires HEAP0 <= k0 < HEAP0 + n <= heap.Length
    requires Distinct(heap[..], n) && IndexedBut(heap[..], n, k0)
    modifies heap, Members(heap[..], n)`active
    ensures heap[..] == UpHeap(old(heap[..]), k0)
    ensures Distinct(heap[..], n) && Indexed(heap[..], n)
  {
    var k, he := k0, heap[k0];
    ghost var s, members := heap[..], Members(heap[..], n);
    while true
      invariant HEAP0 <= k <= k0 && s == heap[..][k := he] && UpHeap(s, k) == UpHeap(old(heap[..]), k0)
      invariant Distinct(s, n) && Members(s, n) == members && IndexedBut(s, n, k)
      decreases k
    {
      var p := Parent(k);
      if p == k || heap[p].at <= he.at {
        break;
      }
      MoveEntry(heap, n, k, p, he);
      s := Swap(s, k, p);
      k := p;
    }
    assert s[k].w in members;
    heap[k] := he;
    he.w.active := k;
    assert heap[..] == s;
  }

  /** The child that downheap picks, with the fast path for four children. (The slow path of
      the source also looks at a fourth child, which cannot be there.) */
  method PickChild(heap: array<Anhe<Watcher?>>, n: nat, k: nat) returns (minpos: nat)
    requires HEAP0 <= k && FirstChild(k) < HEAP0 + n <= heap.Length
    ensures minpos == MinChild(heap[..], n, k)
  {
    var pos, end := FirstChild(k), HEAP0 + n;
    minpos := pos;
    if pos + DHEAP - 1 < end {
      if heap[pos + 1].at < heap[minpos].at { minpos := pos + 1; }
      if heap[pos + 2].at < heap[minpos].at { minpos := pos + 2; }
      if heap[pos + 3].at < heap[minpos].at { minpos := pos + 3; }
    } else {
      if pos + 1 < end && heap[pos + 1].at < heap[minpos].at { minpos := pos + 1; }
      if pos + 2 < end && heap[pos + 2].at < heap[minpos].at { minpos := pos + 2; }
    }
  }

  lemma MinChildIgnoresParent(s: Entries, t: Entries, n: nat, k: nat)
    requires HEAP0 <= k && FirstChild(k) < HEAP0 + n <= |s| == |t| && t == s[k := t[k]]
    ensures MinChild(s, n, k) == MinChild(t, n, k) && s[MinChild(s, n, k)] == t[MinChild(s, n, k)]
  {
  }

  /** downheap: the entry of slot k0 is held back while its least descendants move up. */
  method DownHeapInPlace(heap: array<Anhe<Watcher?>>, n: nat, k0: nat)
    requires HEAP0 <= k0 < HEAP0 + n <= heap.Length
    requires Distinct(heap[..], n) && IndexedBut(heap[..], n, k0)
    modifies heap, Members(heap[..], n)`active
    ensures heap[..] == DownHeap(old(heap[..]), n, k0)
    ensures Distinct(heap[..], n) && Indexed(heap[..], n)
  {
    hide MinChild, EntrySet, Swap;
    var k, he := k0, heap[k0];
    ghost var s, members := heap[..], Members(heap[..], n);
    while true
      invariant HEAP0 <= k < HEAP0 + n && s == heap[..][k := he]
      invariant DownHeap(s, n, k) == DownHeap(old(heap[..]), n, k0)
      invariant Distinct(s, n) && Members(s, n) == members && IndexedBut(s, n, k)
      decreases HEAP0 + n - k
    {
      if FirstChild(k) >= HEAP0 + n {
        break;
      }
      var c := PickChild(heap, n, k);
      MinChildIgnoresParent(heap[..], s, n, k);
      if he.at <= heap[c].at {
        break;
      }
      MoveEntry(heap, n, k, c, he);
      s := Swap(s, k, c);
      k := c;
    }
    assert s[k].w in members;
    heap[k] := he;
    he.w.active := k;
    assert heap[..] == s;
  }

  /** adjustheap. */
  method AdjustHeapInPlace(heap: array<Anhe<Watcher?>>, n: nat, k: nat)
    requires HEAP0 <= k < HEAP0 + n <= heap.Length
    requires Distinct(heap[..], n) && IndexedBut(heap[..], n, k)
    modifies heap, Members(heap[..], n)`active
    ensures heap[..] == AdjustHeap(old(heap[..]), n, k)
    ensures Distinct(heap[..], n) && Indexed(heap[..], n)
  {
    if k > HEAP0 && heap[k].at <= heap[Parent(k)].at {
      UpHeapInPlace(heap, n, k);
    } else {
      DownHeapInPlace(heap, n, k);
    }
  }

  lemma ReHeapKeepsMembers(s: Entries, n: nat, m: nat)
    requires m <= n && HEAP0 + n <= |s| && Distinct(s, n)
    ensures KeepsEntries(s, ReHeap(s, m), n)
  {
    if m > 0 {
      ReHeapKeepsMembers(s, n, m - 1);
      UpHeapKeepsMembers(ReHeap(s, m - 1), n, HEAP0 + m - 1);
    }
  }

  /** reheap. */
  method ReHeapInPlace(heap: array<Anhe<Watcher?>>, n: nat)
    requires HEAP0 + n <= heap.Length && Distinct(heap[..], n) && Indexed(heap[..], n)
    modifies heap, Members(heap[..], n)`active
    ensures heap[..] == ReHeap(old(heap[..]), n)
    ensures Distinct(heap[..], n) && Indexed(heap[..], n)
  {
    ghost var members := Members(heap[..], n);
    for i := 0 to n
      invariant heap[..] == ReHeap(old(heap[..]), i)
      invariant Distinct(heap[..], n) && Members(heap[..], n) == members && Indexed(heap[..], n)
    {
      ReHeapKeepsMembers(old(heap[..]), n, i + 1);
      UpHeapInPlace(heap, n, HEAP0 + i);
    }
  }
}

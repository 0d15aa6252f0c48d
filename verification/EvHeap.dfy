/** The 4-ary heap of libev on sequences: what upheap, downheap, adjustheap and reheap
    compute, and that they restore the heap order. */
module EvHeap {

  const DHEAP: nat := 4

  /** The index of the first heap entry; the indices below it are unused. */
  const HEAP0: nat := DHEAP - 1

  /** A heap entry with the cached time of its watcher. */
  datatype Anhe<T> = Anhe(w: T, at: real)

  /** Division as C does it, towards zero. */
  function CDiv(a: int, b: nat): int
    requires b > 0
  {
    if a >= 0 then a / b else -(-a / b)
  }

  /** HPARENT: the root is its own parent because C truncates. */
  function Parent(k: nat): (p: nat)
    requires k >= HEAP0
    ensures HEAP0 <= p <= k && (p == k <==> k == HEAP0)
  {
    CDiv(k - HEAP0 - 1, DHEAP) + HEAP0
  }

  function FirstChild(k: nat): nat
    requires k >= HEAP0
  {
    DHEAP * (k - HEAP0) + HEAP0 + 1
  }

  lemma ParentChild(k: nat, i: nat)
    requires k >= HEAP0 && i > HEAP0
    ensures Parent(i) == k <==> FirstChild(k) <= i < FirstChild(k) + DHEAP
  {
  }

  // ---------- heap order ----------

  /** The entry at i is not before its parent. */
  predicate InOrder<T>(s: seq<Anhe<T>>, i: nat)
    requires HEAP0 <= i < |s|
  {
    s[Parent(i)].at <= s[i].at
  }

  ghost predicate Heap<T>(s: seq<Anhe<T>>, n: nat)
    requires HEAP0 + n <= |s|
  {
    forall i: nat | HEAP0 <= i < HEAP0 + n :: InOrder(s, i)
  }

  /** Heap order except around k: what is below k is not before what is above k. */
  ghost predicate HeapBut<T>(s: seq<Anhe<T>>, n: nat, k: nat)
    requires HEAP0 + n <= |s| && HEAP0 <= k < HEAP0 + n
  {
    && (forall i: nat | HEAP0 <= i < HEAP0 + n && i != k && Parent(i) != k :: InOrder(s, i))
    && (forall i: nat | HEAP0 < i < HEAP0 + n && Parent(i) == k :: s[Parent(k)].at <= s[i].at || k == HEAP0)
  }

  /** The root is first: no entry is before it. */
  lemma {:induction false} RootIsFirst<T>(s: seq<Anhe<T>>, n: nat, i: nat)
    requires HEAP0 + n <= |s| && Heap(s, n) && HEAP0 <= i < HEAP0 + n
    ensures s[HEAP0].at <= s[i].at
    decreases i
  {
    if i != HEAP0 {
      assert InOrder(s, i);
      RootIsFirst(s, n, Parent(i));
    }
  }

  // ---------- the operations ----------

  function Swap<T>(s: seq<Anhe<T>>, i: nat, j: nat): (r: seq<Anhe<T>>)
    requires i < |s| && j < |s|
    ensures |r| == |s|
  {
    s[i := s[j]][j := s[i]]
  }

  /** upheap: towards the root. */
  function UpHeap<T>(s: seq<Anhe<T>>, k: nat): (r: seq<Anhe<T>>)
    requires HEAP0 <= k < |s|
    ensures |r| == |s|
    decreases k
  {
    var p := Parent(k);
    if p == k || s[p].at <= s[k].at then s else UpHeap(Swap(s, k, p), p)
  }

  /** The child of k that downheap picks: the first one with the least time. */
  function MinChild<T>(s: seq<Anhe<T>>, n: nat, k: nat): (c: nat)
    requires HEAP0 <= k && FirstChild(k) < HEAP0 + n <= |s|
    ensures FirstChild(k) <= c < FirstChild(k) + DHEAP && c < HEAP0 + n
    ensures forall i: nat | FirstChild(k) <= i < FirstChild(k) + DHEAP && i < HEAP0 + n :: s[c].at <= s[i].at
  {
    var pos, end := FirstChild(k), HEAP0 + n;
    var c1 := if pos + 1 < end && s[pos+1].at < s[pos].at then pos + 1 else pos;
    var c2 := if pos + 2 < end && s[pos+2].at < s[c1].at then pos + 2 else c1;
    if pos + 3 < end && s[pos+3].at < s[c2].at then pos + 3 else c2
  }

  /** downheap: away from the root. */
  function DownHeap<T>(s: seq<Anhe<T>>, n: nat, k: nat): (r: seq<Anhe<T>>)
    requires HEAP0 <= k < HEAP0 + n <= |s|
    ensures |r| == |s|
    decreases HEAP0 + n - k
  {
    if FirstChild(k) >= HEAP0 + n then s
    else
      var c := MinChild(s, n, k);
      if s[k].at <= s[c].at then s else DownHeap(Swap(s, k, c), n, c)
  }

  /** adjustheap. */
  function AdjustHeap<T>(s: seq<Anhe<T>>, n: nat, k: nat): (r: seq<Anhe<T>>)
    requires HEAP0 <= k < HEAP0 + n <= |s|
    ensures |r| == |s|
  {
    if k > HEAP0 && s[k].at <= s[Parent(k)].at then UpHeap(s, k) else DownHeap(s, n, k)
  }

  /** reheap: every entry is moved up, one after the other. */
  function ReHeap<T>(s: seq<Anhe<T>>, n: nat): (r: seq<Anhe<T>>)
    requires HEAP0 + n <= |s|
    ensures |r| == |s|
  {
    if n == 0 then s else UpHeap(ReHeap(s, n - 1), HEAP0 + n - 1)
  }

  // ---------- they keep the entries ----------

  /** The same entries in the first n heap slots, and nothing else moved. */
  predicate Rearranged<T(==)>(s: seq<Anhe<T>>, r: seq<Anhe<T>>, n: nat)
    requires HEAP0 + n <= |s|
  {
    && |r| == |s| && multiset(r) == multiset(s)
    && r[..HEAP0] == s[..HEAP0] && r[HEAP0 + n..] == s[HEAP0 + n..]
  }

  lemma SwapRearranges<T>(s: seq<Anhe<T>>, n: nat, i: nat, j: nat)
    requires HEAP0 + n <= |s| && HEAP0 <= i < HEAP0 + n && HEAP0 <= j < HEAP0 + n
    ensures Rearranged(s, Swap(s, i, j), n)
  {
  }

  lemma {:induction false} UpHeapRearranges<T>(s: seq<Anhe<T>>, n: nat, k: nat)
    requires HEAP0 <= k < HEAP0 + n <= |s|
    ensures Rearranged(s, UpHeap(s, k), n)
    decreases k
  {
    hide Swap;
    var p := Parent(k);
    if p != k && s[p].at > s[k].at {
      SwapRearranges(s, n, k, p);
      UpHeapRearranges(Swap(s, k, p), n, p);
    }
  }

  lemma {:induction false} DownHeapRearranges<T>(s: seq<Anhe<T>>, n: nat, k: nat)
    requires HEAP0 <= k < HEAP0 + n <= |s|
    ensures Rearranged(s, DownHeap(s, n, k), n)
    decreases HEAP0 + n - k
  {
    hide Swap;
    if FirstChild(k) < HEAP0 + n {
      var c := MinChild(s, n, k);
      if s[k].at > s[c].at {
        SwapRearranges(s, n, k, c);
        DownHeapRearranges(Swap(s, k, c), n, c);
      }
    }
  }

  lemma AdjustHeapRearranges<T>(s: seq<Anhe<T>>, n: nat, k: nat)
    requires HEAP0 <= k < HEAP0 + n <= |s|
    ensures Rearranged(s, AdjustHeap(s, n, k), n)
  {
    UpHeapRearranges(s, n, k);
    DownHeapRearranges(s, n, k);
  }

  // ---------- they restore the order ----------

  /** Moving the entry at k up restores the order if k is not before what is below it. */
  lemma {:induction false} UpHeapOrders<T>(s: seq<Anhe<T>>, n: nat, k: nat)
    requires HEAP0 <= k < HEAP0 + n <= |s| && HeapBut(s, n, k)
    requires forall i: nat | HEAP0 < i < HEAP0 + n && Parent(i) == k :: s[k].at <= s[i].at
    ensures Heap(UpHeap(s, k), n)
    decreases k
  {
    var p := Parent(k);
    if p == k || s[p].at <= s[k].at {
      forall i: nat | HEAP0 <= i < HEAP0 + n ensures InOrder(s, i) {
      }
    } else {
      var t := Swap(s, k, p);
      forall i: nat | HEAP0 <= i < HEAP0 + n && i != p && Parent(i) != p ensures InOrder(t, i) {
        assert Parent(i) == k || InOrder(s, i);
      }
      forall i: nat | HEAP0 < i < HEAP0 + n && Parent(i) == p
        ensures t[p].at <= t[i].at && (t[Parent(p)].at <= t[i].at || p == HEAP0)
      {
        assert i == k || InOrder(s, i);
        assert p == HEAP0 || InOrder(s, p);
      }
      UpHeapOrders(t, n, p);
    }
  }

  /** Moving the entry at k down restores the order if k is not before what is above it. */
  lemma {:induction false} DownHeapOrders<T>(s: seq<Anhe<T>>, n: nat, k: nat)
    requires HEAP0 <= k < HEAP0 + n <= |s| && HeapBut(s, n, k)
    requires InOrder(s, k)
    ensures Heap(DownHeap(s, n, k), n)
    decreases HEAP0 + n - k
  {
    var stop := FirstChild(k) >= HEAP0 + n || s[k].at <= s[MinChild(s, n, k)].at;
    if stop {
      forall i: nat | HEAP0 <= i < HEAP0 + n ensures InOrder(s, i) {
        if i > HEAP0 && Parent(i) == k {
          ParentChild(k, i);
        }
      }
    } else {
      var c := MinChild(s, n, k);
      ParentChild(k, c);
      var t := Swap(s, k, c);
      forall i: nat | HEAP0 <= i < HEAP0 + n && i != c && Parent(i) != c ensures InOrder(t, i) {
        if i > HEAP0 && Parent(i) == k {
          ParentChild(k, i);
        }
      }
      forall i: nat | HEAP0 < i < HEAP0 + n && Parent(i) == c ensures t[Parent(c)].at <= t[i].at {
        assert InOrder(s, i);
      }
      DownHeapOrders(t, n, c);
    }
  }

  /** Adjusting the entry at k restores the order whatever its time has become. */
  lemma AdjustHeapOrders<T>(s: seq<Anhe<T>>, n: nat, k: nat)
    requires HEAP0 <= k < HEAP0 + n <= |s| && HeapBut(s, n, k)
    ensures Heap(AdjustHeap(s, n, k), n)
  {
    if k > HEAP0 && s[k].at <= s[Parent(k)].at {
      UpHeapOrders(s, n, k);
    } else {
      DownHeapOrders(s, n, k);
    }
  }

  /** reheap makes a heap of any entries. */
  lemma {:induction false} ReHeapOrders<T>(s: seq<Anhe<T>>, n: nat)
    requires HEAP0 + n <= |s|
    ensures Heap(ReHeap(s, n), n) && Rearranged(s, ReHeap(s, n), n)
    decreases n
  {
    if n > 0 {
      ReHeapOrders(s, n - 1);
      var t := ReHeap(s, n - 1);
      UpHeapRearranges(t, n, HEAP0 + n - 1);
      RearrangedWider(s, t, n - 1);
      NewestIsLeaf(t, n);
      UpHeapOrders(t, n, HEAP0 + n - 1);
    }
  }

  lemma RearrangedWider<T>(s: seq<Anhe<T>>, r: seq<Anhe<T>>, n: nat)
    requires HEAP0 + n + 1 <= |s| && Rearranged(s, r, n)
    ensures Rearranged(s, r, n + 1)
  {
    assert r[HEAP0 + n + 1..] == r[HEAP0 + n..][1..];
    assert s[HEAP0 + n + 1..] == s[HEAP0 + n..][1..];
  }

  /** An entry added behind a heap has nothing below it. */
  lemma NewestIsLeaf<T>(s: seq<Anhe<T>>, n: nat)
    requires 0 < n && HEAP0 + n <= |s| && Heap(s, n - 1)
    ensures HeapBut(s, n, HEAP0 + n - 1)
    ensures forall i: nat | HEAP0 < i < HEAP0 + n :: Parent(i) != HEAP0 + n - 1
  {
    forall i: nat | HEAP0 <= i < HEAP0 + n && i != HEAP0 + n - 1 ensures InOrder(s, i) {
    }
  }
}

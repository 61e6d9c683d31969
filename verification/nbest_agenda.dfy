/** The A* agenda of the N-best generator: queue elements, their comparator, and the
    priority queue of element pointers ordered by that comparator. */
module NBestAgenda {

  /** A C++ `long` on an LP64 platform. */
  newtype Long = x: int | -0x8000_0000_0000_0000 <= x < 0x8000_0000_0000_0000

  predicate InLong(x: int) {
    -0x8000_0000_0000_0000 <= x < 0x8000_0000_0000_0000
  }

  /** A lattice node, identified by its position in the lattice. */
  type NodeId = nat

  /** One search state: the node reached, the element it was expanded from, the cost so
      far `gx` and the estimate `fx` of the cost of a whole path through it. Elements are
      handled through pointers, so two elements with equal fields are still distinct. */
  class QueueElement {
    const node: NodeId
    const next: QueueElement?
    const fx: Long
    const gx: Long

    /** An element whose estimate is the cost so far plus the heuristic `h` of its node. */
    constructor (node: NodeId, next: QueueElement?, gx: Long, h: Long)
      requires InLong(gx as int + h as int)
      ensures this.node == node && this.next == next && this.gx == gx
      ensures fx as int == gx as int + h as int
    {
      this.node := node;
      this.next := next;
      this.gx := gx;
      this.fx := gx + h;
    }
  }

  /** `QueueElementComp`: `q1` ranks below `q2` when its estimate is larger, so the queue
      keeps the smallest estimate on top. The order is strict: no element ranks below
      itself, nor below one with the same estimate. */
  predicate Comp(q1: QueueElement, q2: QueueElement)
    ensures Comp(q1, q2) ==> q1 != q2 && q1.fx != q2.fx
  {
    q1.fx > q2.fx
  }

  /** Neither element ranks below the other. */
  predicate Incomparable(q1: QueueElement, q2: QueueElement) {
    !Comp(q1, q2) && !Comp(q2, q1)
  }

  /** The comparator is a strict weak order, as the priority queue requires: irreflexive,
      transitive, and with transitive incomparability. */
  lemma CompStrictWeakOrder(a: QueueElement, b: QueueElement, c: QueueElement)
    ensures !Comp(a, a)
    ensures Comp(a, b) ==> !Comp(b, a)
    ensures Comp(a, b) && Comp(b, c) ==> Comp(a, c)
    ensures Incomparable(a, b) && Incomparable(b, c) ==> Incomparable(a, c)
  {
  }

  /** Two elements are incomparable exactly when their estimates are equal: neither the
      cost so far nor the order of insertion breaks the tie. */
  lemma EqualEstimatesIncomparable(a: QueueElement, b: QueueElement)
    ensures Incomparable(a, b) <==> a.fx == b.fx
  {
  }

  function Parent(i: nat): nat
    requires i > 0
  {
    (i - 1) / 2
  }

  /** Every element's estimate is at least its parent's. */
  ghost predicate IsHeap(h: seq<QueueElement>) {
    forall i :: 0 < i < |h| ==> h[Parent(i)].fx <= h[i].fx
  }

  /** In a heap, the root's estimate is the smallest. */
  lemma {:induction false} HeapRootMin(h: seq<QueueElement>, i: nat)
    requires IsHeap(h)
    requires i < |h|
    ensures h[0].fx <= h[i].fx
    decreases i
  {
    if i > 0 {
      HeapRootMin(h, Parent(i));
    }
  }

  /** The children of `i` are exactly `2i+1` and `2i+2`. */
  lemma ParentOf(k: nat, i: nat)
    requires k > 0
    ensures Parent(k) == i <==> k == 2 * i + 1 || k == 2 * i + 2
  {
  }

  function Swap(h: seq<QueueElement>, i: nat, j: nat): (r: seq<QueueElement>)
    requires i < |h| && j < |h|
    ensures |r| == |h| && r[i] == h[j] && r[j] == h[i]
    ensures forall k :: 0 <= k < |h| && k != i && k != j ==> r[k] == h[k]
    ensures multiset(r) == multiset(h)
  {
    h[i := h[j]][j := h[i]]
  }

  /** A heap but for the link between `i` and its parent; the parent of `i` is still no
      larger than the children of `i`. */
  ghost predicate HeapButUp(h: seq<QueueElement>, i: nat) {
    && i < |h|
    && (forall k :: 0 < k < |h| && k != i ==> h[Parent(k)].fx <= h[k].fx)
    && (i > 0 ==> forall k :: 0 < k < |h| && Parent(k) == i ==> h[Parent(i)].fx <= h[k].fx)
  }

  lemma AppendUp(h: seq<QueueElement>, q: QueueElement)
    requires IsHeap(h)
    ensures HeapButUp(h + [q], |h|)
  {
    forall k | 0 < k < |h + [q]|
      ensures Parent(k) < |h|
    {
    }
  }

  lemma SwapUp(h: seq<QueueElement>, i: nat)
    requires HeapButUp(h, i) && i > 0 && h[Parent(i)].fx > h[i].fx
    ensures HeapButUp(Swap(h, i, Parent(i)), Parent(i))
  {
    var p := Parent(i);
    var h' := Swap(h, i, p);
    forall k | 0 < k < |h'| && k != p
      ensures h'[Parent(k)].fx <= h'[k].fx
    {
      if k == i {
      } else if Parent(k) == i {
      } else if Parent(k) == p {
      } else {
        assert h'[k] == h[k];
        assert h'[Parent(k)] == h[Parent(k)];
      }
    }
    if p > 0 {
      forall k | 0 < k < |h'| && Parent(k) == p
        ensures h'[Parent(p)].fx <= h'[k].fx
      {
      }
    }
  }

  lemma UpDone(h: seq<QueueElement>, i: nat)
    requires HeapButUp(h, i) && (i == 0 || h[Parent(i)].fx <= h[i].fx)
    ensures IsHeap(h)
  {
  }

  /** A heap but for the links between `i` and its children; the parent of `i` is still no
      larger than the children of `i`. */
  ghost predicate HeapButDown(h: seq<QueueElement>, i: nat) {
    && (forall k :: 0 < k < |h| && Parent(k) != i ==> h[Parent(k)].fx <= h[k].fx)
    && (i > 0 ==> forall k :: 0 < k < |h| && Parent(k) == i ==> h[Parent(i)].fx <= h[k].fx)
  }

  lemma RemoveRoot(h: seq<QueueElement>)
    requires IsHeap(h) && |h| > 0
    ensures HeapButDown(h[0 := h[|h| - 1]][..|h| - 1], 0)
    ensures multiset(h[0 := h[|h| - 1]][..|h| - 1]) == multiset(h) - multiset{h[0]}
  {
    var last := |h| - 1;
    var h' := h[0 := h[last]][..last];
    assert h == [h[0]] + h[1..];
    if last > 0 {
      assert h' == [h[last]] + h[1..last];
      assert h[1..] == h[1..last] + [h[last]];
    }
  }

  lemma SwapDown(h: seq<QueueElement>, i: nat, c: nat)
    requires HeapButDown(h, i) && c < |h|
    requires c == 2 * i + 1 || c == 2 * i + 2
    requires h[c].fx < h[i].fx
    requires forall k :: 0 < k < |h| && Parent(k) == i ==> h[c].fx <= h[k].fx
    ensures HeapButDown(Swap(h, i, c), c)
  {
    ParentOf(c, i);
    var h' := Swap(h, i, c);
    forall k | 0 < k < |h'| && Parent(k) != c
      ensures h'[Parent(k)].fx <= h'[k].fx
    {
      if k == c {
      } else if Parent(k) == i {
      } else if k == i {
      } else {
        assert h'[k] == h[k];
        assert h'[Parent(k)] == h[Parent(k)];
      }
    }
  }

  /** `s` is the one among `i` and its children with the smallest estimate. */
  lemma SmallestChild(h: seq<QueueElement>, i: nat, s: nat)
    requires i < |h| && s < |h|
    requires s == i || s == 2 * i + 1 || s == 2 * i + 2
    requires h[s].fx <= h[i].fx
    requires 2 * i + 1 < |h| ==> h[s].fx <= h[2 * i + 1].fx
    requires 2 * i + 2 < |h| ==> h[s].fx <= h[2 * i + 2].fx
    ensures forall k :: 0 < k < |h| && Parent(k) == i ==> h[s].fx <= h[k].fx
  {
    forall k | 0 < k < |h| && Parent(k) == i
      ensures h[s].fx <= h[k].fx
    {
      ParentOf(k, i);
    }
  }

  lemma DownDone(h: seq<QueueElement>, i: nat)
    requires HeapButDown(h, i)
    requires forall k :: 0 < k < |h| && Parent(k) == i ==> h[i].fx <= h[k].fx
    ensures IsHeap(h)
  {
  }

  /** What remains after removing a smallest element is no smaller than it. */
  lemma RestNoSmaller(h: seq<QueueElement>, rest: seq<QueueElement>, top: QueueElement)
    requires multiset(rest) == multiset(h) - multiset{top}
    requires forall q :: q in multiset(h) ==> top.fx <= q.fx
    ensures forall q :: q in multiset(rest) ==> top.fx <= q.fx
  {
    forall q | q in multiset(rest)
      ensures top.fx <= q.fx
    {
      assert q in multiset(h);
    }
  }

  /** Moves the last element up past every parent with a larger estimate, restoring the
      heap. */
  method SiftUp(h0: seq<QueueElement>) returns (h: seq<QueueElement>)
    requires |h0| > 0 && HeapButUp(h0, |h0| - 1)
    ensures IsHeap(h)
    ensures multiset(h) == multiset(h0)
  {
    h := h0;
    var i: nat := |h| - 1;
    while i > 0 && h[Parent(i)].fx > h[i].fx
      invariant HeapButUp(h, i)
      invariant multiset(h) == multiset(h0)
      decreases i
    {
      SwapUp(h, i);
      h := Swap(h, i, Parent(i));
      i := Parent(i);
    }
    UpDone(h, i);
  }

  /** Moves the root down past every child with a smaller estimate, restoring the heap. */
  method SiftDown(h0: seq<QueueElement>) returns (h: seq<QueueElement>)
    requires HeapButDown(h0, 0)
    ensures IsHeap(h)
    ensures multiset(h) == multiset(h0)
  {
    h := h0;
    var i: nat := 0;
    var done := |h| == 0;
    while !done
      invariant !done ==> i < |h|
      invariant HeapButDown(h, i)
      invariant multiset(h) == multiset(h0)
      invariant done ==> IsHeap(h)
      decreases |h| - i, !done
    {
      var smallest := i;
      if 2 * i + 1 < |h| && h[2 * i + 1].fx < h[smallest].fx {
        smallest := 2 * i + 1;
      }
      if 2 * i + 2 < |h| && h[2 * i + 2].fx < h[smallest].fx {
        smallest := 2 * i + 2;
      }
      SmallestChild(h, i, smallest);
      if smallest == i {
        DownDone(h, i);
        done := true;
      } else {
        SwapDown(h, i, smallest);
        h := Swap(h, i, smallest);
        i := smallest;
      }
    }
  }

  /** The agenda: a binary heap in a vector, as `std::priority_queue` keeps it. */
  class Agenda {
    var heap: seq<QueueElement>

    ghost predicate Valid()
      reads this
    {
      IsHeap(heap)
    }

    /** The queued elements, counted with multiplicity. */
    function Elements(): multiset<QueueElement>
      reads this
    {
      multiset(heap)
    }

    constructor ()
      ensures Valid() && Elements() == multiset{}
    {
      heap := [];
    }

    /** `empty()`. */
    function IsEmpty(): (r: bool)
      reads this
      ensures r <==> Elements() == multiset{}
    {
      |heap| == 0
    }

    /** `top()`: an element whose estimate is no larger than any queued element's. */
    function Top(): (t: QueueElement)
      reads this
      requires Valid() && !IsEmpty()
      ensures t in Elements()
      ensures forall q :: q in Elements() ==> t.fx <= q.fx
    {
      forall q | q in multiset(heap)
        ensures heap[0].fx <= q.fx
      {
        var i :| 0 <= i < |heap| && heap[i] == q;
        HeapRootMin(heap, i);
      }
      heap[0]
    }

    /** `push(q)`: appends `q` and moves it up past every parent with a larger estimate. */
    method Push(q: QueueElement)
      requires Valid()
      modifies this
      ensures Valid()
      ensures Elements() == old(Elements()) + multiset{q}
    {
      AppendUp(heap, q);
      heap := SiftUp(heap + [q]);
    }

    /** `pop()`: removes the top element; the last element takes its place and moves down
        past every child with a smaller estimate. */
    method Pop()
      requires Valid() && !IsEmpty()
      modifies this
      ensures Valid()
      ensures Elements() == old(Elements()) - multiset{old(Top())}
      ensures !IsEmpty() ==> old(Top()).fx <= Top().fx
    {
      ghost var top := Top();
      RemoveRoot(heap);
      var last := |heap| - 1;
      heap := SiftDown(heap[0 := heap[last]][..last]);
      RestNoSmaller(old(heap), heap, top);
    }
  }
}

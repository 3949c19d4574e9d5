/** The binary heap behind the scheduler: the sift loops of the standard heap queue on a list of entries. */
module HeapQueue {
  /** One scheduled callback. Only `deadline` and `sequence` take part in the order. */
  datatype Entry = Entry(deadline: real, sequence: nat, key: string, generation: nat, callback: nat)

  predicate Before(a: Entry, b: Entry) {
    a.deadline < b.deadline || (a.deadline == b.deadline && a.sequence < b.sequence)
  }

  function Parent(i: nat): (p: nat)
    requires i > 0
    ensures p < i && (i == 2 * p + 1 || i == 2 * p + 2)
  {
    (i - 1) / 2
  }

  ghost predicate IsHeap(h: seq<Entry>) {
    forall i: nat {:trigger Parent(i)} :: 0 < i < |h| ==> !Before(h[i], h[Parent(i)])
  }

  /** Every pair is in order except, perhaps, the one between `pos` and its parent. */
  ghost predicate HeapExceptAbove(h: seq<Entry>, pos: nat) {
    forall i: nat {:trigger Parent(i)} :: 0 < i < |h| && i != pos ==> !Before(h[i], h[Parent(i)])
  }

  /** Every pair is in order except, perhaps, those that involve `pos`. */
  ghost predicate HeapExceptAround(h: seq<Entry>, pos: nat) {
    forall i: nat {:trigger Parent(i)} :: 0 < i < |h| && i != pos && Parent(i) != pos ==> !Before(h[i], h[Parent(i)])
  }

  /** The children of `pos` are in order with the parent of `pos`. */
  ghost predicate Bridged(h: seq<Entry>, pos: nat)
    requires pos < |h|
  {
    pos > 0 ==> forall i: nat {:trigger Parent(i)} :: 0 < i < |h| && Parent(i) == pos ==> !Before(h[i], h[Parent(pos)])
  }

  /** In a heap nothing precedes the root. */
  lemma {:induction false} RootLeast(h: seq<Entry>, i: nat)
    requires IsHeap(h) && i < |h|
    ensures !Before(h[i], h[0])
  {
    if i > 0 {
      RootLeast(h, Parent(i));
    }
  }

  function Swap(h: seq<Entry>, i: nat, j: nat): (r: seq<Entry>)
    requires i < |h| && j < |h|
    ensures |r| == |h|
  {
    h[i := h[j]][j := h[i]]
  }

  lemma SwapKeeps(h: seq<Entry>, i: nat, j: nat)
    requires i < |h| && j < |h|
    ensures multiset(Swap(h, i, j)) == multiset(h)
  {
  }

  /** One step towards the root keeps the loop invariant of `SiftDown`. */
  lemma StepUp(h: seq<Entry>, pos: nat)
    requires 0 < pos < |h| && HeapExceptAbove(h, pos) && Bridged(h, pos)
    requires Before(h[pos], h[Parent(pos)])
    ensures HeapExceptAbove(Swap(h, pos, Parent(pos)), Parent(pos))
    ensures Bridged(Swap(h, pos, Parent(pos)), Parent(pos))
    ensures multiset(Swap(h, pos, Parent(pos))) == multiset(h)
  {
    SwapKeeps(h, pos, Parent(pos));
    var p := Parent(pos);
    var g := Swap(h, pos, p);
    forall i: nat | 0 < i < |g| && i != p
      ensures !Before(g[i], g[Parent(i)])
    {
      assert i != pos ==> !Before(h[i], h[Parent(i)]);
    }
    if p > 0 {
      forall i: nat | 0 < i < |g| && Parent(i) == p
        ensures !Before(g[i], g[Parent(p)])
      {
        assert !Before(h[p], h[Parent(p)]);
        assert i != pos ==> !Before(h[i], h[p]);
      }
    }
  }

  /** One step towards the leaves, along the smaller child, keeps the loop invariant of `SiftUp`. */
  lemma StepDown(h: seq<Entry>, pos: nat, child: nat)
    requires pos < |h| && HeapExceptAround(h, pos) && Bridged(h, pos)
    requires 2 * pos + 1 <= child <= 2 * pos + 2 && child < |h|
    requires !Before(h[2 * pos + 1], h[child])
    requires 2 * pos + 2 < |h| ==> !Before(h[2 * pos + 2], h[child])
    ensures HeapExceptAround(Swap(h, pos, child), child)
    ensures Bridged(Swap(h, pos, child), child)
    ensures multiset(Swap(h, pos, child)) == multiset(h)
  {
    SwapKeeps(h, pos, child);
    var g := Swap(h, pos, child);
    forall i: nat | 0 < i < |g| && i != child && Parent(i) != child
      ensures !Before(g[i], g[Parent(i)])
    {
      if i == pos {
        assert !Before(h[child], h[Parent(pos)]);
      } else if Parent(i) != pos {
        assert !Before(h[i], h[Parent(i)]);
      } else {
        assert i == 2 * pos + 1 || i == 2 * pos + 2;
      }
    }
    forall i: nat | 0 < i < |g| && Parent(i) == child
      ensures !Before(g[i], g[Parent(child)])
    {
      assert !Before(h[i], h[Parent(i)]);
    }
  }

  /** A hole without children leaves only the pair above it unsettled. */
  lemma HoleAtLeaf(h: seq<Entry>, pos: nat)
    requires pos < |h| <= 2 * pos + 1 && HeapExceptAround(h, pos)
    ensures HeapExceptAbove(h, pos) && Bridged(h, pos)
  {
  }

  /** Filling the hole from `next` and moving the hole there swaps the two in the whole. */
  lemma HoleMoves(h: seq<Entry>, pos: nat, next: nat, item: Entry)
    requires pos < |h| && next < |h| && pos != next
    ensures Swap(h[pos := item], pos, next) == h[pos := h[next]][next := item]
  {
  }

  lemma HoleSettled(h: seq<Entry>, pos: nat)
    requires pos < |h| && HeapExceptAbove(h, pos)
    requires pos > 0 ==> !Before(h[pos], h[Parent(pos)])
    ensures IsHeap(h)
  {
  }

  /** Move the entry at `start` towards the root until its parent does not come after it. */
  method SiftDown(heap: seq<Entry>, start: nat) returns (h: seq<Entry>)
    requires start < |heap| && HeapExceptAbove(heap, start) && Bridged(heap, start)
    ensures IsHeap(h) && multiset(h) == multiset(heap)
  {
    h := heap;
    var pos := start;
    var item := h[pos];
    ghost var whole := heap;
    while pos > 0
      invariant 0 <= pos < |h| == |heap| && whole == h[pos := item]
      invariant multiset(whole) == multiset(heap)
      invariant HeapExceptAbove(whole, pos) && Bridged(whole, pos)
    {
      var parent := Parent(pos);
      if !Before(item, h[parent]) {
        break;
      }
      StepUp(whole, pos);
      HoleMoves(h, pos, parent, item);
      whole := Swap(whole, pos, parent);
      h := h[pos := h[parent]];
      pos := parent;
    }
    h := h[pos := item];
    HoleSettled(h, pos);
  }

  /** Move the root down past its smaller child to a leaf, then back up to its place. */
  method SiftUp(heap: seq<Entry>) returns (h: seq<Entry>)
    requires |heap| > 0 && HeapExceptAround(heap, 0)
    ensures IsHeap(h) && multiset(h) == multiset(heap)
  {
    h := heap;
    var pos := 0;
    var item := h[0];
    var child := 1;
    ghost var whole := heap;
    while child < |h|
      invariant 0 <= pos < |h| == |heap| && child == 2 * pos + 1 && whole == h[pos := item]
      invariant multiset(whole) == multiset(heap)
      invariant HeapExceptAround(whole, pos) && Bridged(whole, pos)
      decreases |h| - pos
    {
      var right := child + 1;
      if right < |h| && !Before(h[child], h[right]) {
        child := right;
      }
      StepDown(whole, pos, child);
      HoleMoves(h, pos, child, item);
      whole := Swap(whole, pos, child);
      h := h[pos := h[child]];
      pos := child;
      child := 2 * pos + 1;
    }
    h := h[pos := item];
    HoleAtLeaf(h, pos);
    h := SiftDown(h, pos);
  }

  method HeapPush(heap: seq<Entry>, item: Entry) returns (h: seq<Entry>)
    requires IsHeap(heap)
    ensures IsHeap(h) && multiset(h) == multiset(heap) + multiset{item}
    ensures forall e :: e in h <==> e in heap || e == item
  {
    h := SiftDown(heap + [item], |heap|);
    forall e
      ensures e in h <==> e in heap || e == item
    {
      assert e in h <==> e in multiset(h);
    }
  }

  method HeapPop(heap: seq<Entry>) returns (top: Entry, h: seq<Entry>)
    requires IsHeap(heap) && |heap| > 0
    ensures top == heap[0] && forall e :: e in heap ==> !Before(e, top)
    ensures IsHeap(h) && multiset(heap) == multiset(h) + multiset{top}
    ensures |h| < |heap|
  {
    var last := heap[|heap| - 1];
    h := heap[..|heap| - 1];
    assert heap == h + [last];
    top := last;
    if h != [] {
      top := h[0];
      assert h == [top] + h[1..];
      var replaced := h[0 := last];
      assert replaced == [last] + h[1..];
      h := SiftUp(replaced);
    }
    forall e | e in heap
      ensures !Before(e, top)
    {
      var i :| 0 <= i < |heap| && heap[i] == e;
      RootLeast(heap, i);
    }
    assert |multiset(heap)| == |multiset(h)| + 1;
  }
}

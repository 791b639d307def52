/** The intrusive binary heap (unix_socket_api/binary_heap/binary_heap.c) instantiated with the
    server's connection records (unix_socket_api/src/astrolog.c:137-161): an array of pointers
    to records, ordered by deadline, each record knowing its own slot. */
module Heaps {
  import opened Records

  function Parent(i: int): int { (i - 1) / 2 }

  function LeftChild(i: int): int { 2 * i + 1 }

  /** Distance from slot `i` to the root. */
  function Depth(i: nat): nat {
    if i == 0 then 0 else 1 + Depth(Parent(i))
  }

  /** floor(log2(n)). */
  function Log2(n: nat): nat
    requires n > 0
  {
    if n == 1 then 0 else 1 + Log2(n / 2)
  }

  function Pow2(k: nat): nat {
    if k == 0 then 1 else 2 * Pow2(k - 1)
  }

  lemma {:induction false} Log2IsFloor(n: nat)
    requires n > 0
    ensures Pow2(Log2(n)) <= n < Pow2(Log2(n) + 1)
    decreases n
  {
    if n > 1 { Log2IsFloor(n / 2); }
  }

  lemma {:induction false} DepthIsLog(i: nat)
    ensures Depth(i) == Log2(i + 1)
    decreases i
  {
    if i > 0 {
      DepthIsLog(Parent(i));
      assert Parent(i) + 1 == (i + 1) / 2;
    }
  }

  lemma {:induction false} Log2Grows(m: nat, n: nat)
    requires 0 < m <= n
    ensures Log2(m) <= Log2(n)
    decreases n
  {
    if m > 1 { Log2Grows(m / 2, n / 2); }
  }

  /** No slot of a heap of `n` elements is deeper than floor(log2(n)). */
  lemma DepthBound(i: nat, n: nat)
    requires i < n
    ensures Depth(i) <= Log2(n)
  {
    DepthIsLog(i);
    Log2Grows(i + 1, n);
  }

  /** The last slot with a child, as heapify_down and binary_heap_validate compute it. */
  lemma LastRoot(i: nat, n: nat)
    requires n >= 2
    ensures i <= Parent(n - 1) <==> LeftChild(i) < n
    ensures i > Parent(n - 1) ==> forall j :: 0 < j < n ==> Parent(j) != i
  {
  }

  class Heap {
    const arr: array<Connection?>
    var size: nat
    /** The records in the heap. */
    ghost var held: set<Connection>
    /** How many swaps there have been. */
    ghost var swapped: nat

    constructor (capacity: nat)
      ensures Valid() && size == 0 && held == {} && arr.Length == capacity && fresh(arr)
    {
      arr := new Connection?[capacity];
      size := 0;
      held := {};
      swapped := 0;
    }

    /** The first `size` slots and the held records are in one-to-one correspondence, and every
        record's heap_ix is its own slot. */
    ghost predicate Indexed()
      reads `size, `held, arr, held`heapIx
    {
      && size <= arr.Length
      && (forall i :: 0 <= i < size ==> arr[i] != null && arr[i] in held)
      && (forall i :: 0 <= i < size ==> arr[i].heapIx == i)
      && (forall c :: c in held ==> c.heapIx < size && arr[c.heapIx] == c)
    }

    /** Slot `j` is not before its parent. */
    ghost predicate InOrder(j: int)
      requires Indexed() && 0 < j < size
      reads `size, `held, arr, held`ts, held`heapIx
    {
      arr[Parent(j)].ts <= arr[j].ts
    }

    ghost predicate Ordered()
      requires Indexed()
      reads `size, `held, arr, held`ts, held`heapIx
    {
      forall j :: 0 < j < size ==> InOrder(j)
    }

    ghost predicate Valid()
      reads `size, `held, arr, held`ts, held`heapIx
    {
      Indexed() && Ordered()
    }

    /** The parent of `k`, if any, may take the place of `k` above its children. */
    ghost predicate Bridged(k: int)
      requires Indexed()
      reads `size, `held, arr, held`ts, held`heapIx
    {
      forall j :: 0 < j < size && Parent(j) == k && 0 < k ==> arr[Parent(k)].ts <= arr[j].ts
    }

    /** A heap in which the key of slot `k` alone is out of place, in whichever direction. */
    ghost predicate OneOff(k: int)
      requires Indexed()
      reads `size, `held, arr, held`ts, held`heapIx
    {
      && Bridged(k)
      && forall j :: 0 < j < size && j != k && Parent(j) != k ==> InOrder(j)
    }

    /** ... too early for its place: only the pair above `k` may be out of order. */
    ghost predicate EarlyAt(k: int)
      requires Indexed()
      reads `size, `held, arr, held`ts, held`heapIx
    {
      Bridged(k) && forall j :: 0 < j < size && j != k ==> InOrder(j)
    }

    /** ... too late for its place: only the pairs below `k` may be out of order. */
    ghost predicate LateAt(k: int)
      requires Indexed()
      reads `size, `held, arr, held`ts, held`heapIx
    {
      Bridged(k) && forall j :: 0 < j < size && Parent(j) != k ==> InOrder(j)
    }

    /** swap, with the swap callback of the server: the two pointers change places, and so do
        the slot numbers kept in the two records. */
    method Swap(i: nat, j: nat)
      requires i < arr.Length && j < arr.Length
      requires arr[i] != null && arr[j] != null && arr[i] in held && arr[j] in held
      modifies arr, held`heapIx, `swapped
      ensures arr[i] == old(arr[j]) && arr[j] == old(arr[i])
      ensures forall k :: 0 <= k < arr.Length && k != i && k != j ==> arr[k] == old(arr[k])
      ensures arr[i].heapIx == old(arr[i].heapIx) && arr[j].heapIx == old(arr[j].heapIx)
      ensures forall c :: c in held && c != arr[i] && c != arr[j] ==> c.heapIx == old(c.heapIx)
      ensures swapped == old(swapped) + 1
    {
      var tmp := arr[i];
      arr[i] := arr[j];
      arr[j] := tmp;
      var ix := arr[i].heapIx;
      arr[i].heapIx := arr[j].heapIx;
      arr[j].heapIx := ix;
      swapped := swapped + 1;
    }

    /** One round of heapify_up: the early key changes places with its parent. */
    method RiseOne(i: nat)
      requires Indexed() && 0 < i < size && EarlyAt(i)
      requires arr[i].ts <= arr[Parent(i)].ts
      modifies arr, held`heapIx, `swapped
      ensures Indexed() && EarlyAt(Parent(i))
      ensures swapped == old(swapped) + 1
      ensures forall k :: size <= k < arr.Length ==> arr[k] == old(arr[k])
    {
      var p := Parent(i);
      Swap(i, p);
      forall j | 0 < j < size && j != p
        ensures InOrder(j)
      {
        assert j != i ==> old(InOrder(j));
      }
      forall j | 0 < j < size && Parent(j) == p && 0 < p
        ensures arr[Parent(p)].ts <= arr[j].ts
      {
        assert old(InOrder(p)) && (j != i ==> old(InOrder(j)));
      }
    }

    /** heapify_up: repairs a key that is too early, in at most as many swaps as its depth. */
    method HeapifyUp(ix: nat)
      requires Indexed() && ix < size && EarlyAt(ix)
      modifies arr, held`heapIx, `swapped
      ensures Valid()
      ensures forall k :: size <= k < arr.Length ==> arr[k] == old(arr[k])
      ensures swapped - old(swapped) <= Depth(ix)
    {
      var i: nat := ix;
      while i > 0 && arr[i].ts < arr[Parent(i)].ts
        invariant Indexed() && i < size && EarlyAt(i)
        invariant forall k :: size <= k < arr.Length ==> arr[k] == old(arr[k])
        invariant swapped - old(swapped) + Depth(i) <= Depth(ix)
        decreases i
      {
        RiseOne(i);
        i := Parent(i);
      }
    }

    /** One round of heapify_down: the late key changes places with its earlier child. */
    method SinkOne(i: nat, child: nat)
      requires Indexed() && 0 < child < size && Parent(child) == i && LateAt(i)
      requires arr[child].ts <= arr[i].ts
      requires forall j :: 0 < j < size && Parent(j) == i ==> arr[child].ts <= arr[j].ts
      modifies arr, held`heapIx, `swapped
      ensures Indexed() && LateAt(child)
      ensures swapped == old(swapped) + 1
      ensures Depth(child) == Depth(i) + 1 <= Log2(size)
      ensures forall k :: size <= k < arr.Length ==> arr[k] == old(arr[k])
    {
      DepthBound(child, size);
      assert Depth(child) == Depth(i) + 1;
      hide Depth, Log2;
      Swap(i, child);
      assert Bridged(child);
      forall j | 0 < j < size && Parent(j) != child
        ensures InOrder(j)
      {
        assert Parent(j) != i && j != i ==> old(InOrder(j));
      }
    }

    /** The child that heapify_down and binary_heap_validate compare with its parent. */
    method EarlierChild(i: nat) returns (child: nat)
      requires Indexed() && LeftChild(i) < size
      ensures i < child < size && Parent(child) == i
      ensures forall j :: 0 < j < size && Parent(j) == i ==> arr[child].ts <= arr[j].ts
    {
      child := LeftChild(i);
      if child + 1 < size && arr[child + 1].ts < arr[child].ts {
        child := child + 1;
      }
    }

    /** A late key with no earlier child is in its place. */
    lemma LateButSettled(i: nat)
      requires Indexed() && LateAt(i)
      requires forall j :: 0 < j < size && Parent(j) == i ==> arr[i].ts <= arr[j].ts
      ensures Valid()
    {
    }

    /** heapify_down: repairs a key that is too late, in at most floor(log2(size)) swaps. */
    method HeapifyDown(ix: nat)
      requires Indexed() && LateAt(ix) && (size > 0 ==> ix < size)
      modifies arr, held`heapIx, `swapped
      ensures Valid()
      ensures forall k :: size <= k < arr.Length ==> arr[k] == old(arr[k])
      ensures swapped - old(swapped) <= if size == 0 then 0 else Log2(size)
    {
      hide Depth, Log2, Parent, LeftChild, LateAt, Ordered, Bridged, InOrder;
      if size < 2 {
        LateButSettled(ix);
        return;
      }
      var lastRoot := Parent(size - 1);
      var i: nat := ix;
      DepthBound(i, size);
      while i <= lastRoot
        invariant Indexed() && i < size && LateAt(i)
        invariant forall k :: size <= k < arr.Length ==> arr[k] == old(arr[k])
        invariant swapped - old(swapped) + Depth(ix) == Depth(i) <= Log2(size)
        decreases size - i
      {
        LastRoot(i, size);
        var child := EarlierChild(i);
        if arr[i].ts <= arr[child].ts {
          LateButSettled(i);
          return;
        }
        SinkOne(i, child);
        i := child;
      }
      LastRoot(i, size);
      LateButSettled(i);
    }

    /** binary_heap_update: one key has changed, in whichever direction; order is restored in at
        most floor(log2(size)) swaps. */
    method Update(ix: nat)
      requires Indexed() && ix < size && OneOff(ix)
      modifies arr, held`heapIx, `swapped
      ensures Valid()
      ensures forall k :: size <= k < arr.Length ==> arr[k] == old(arr[k])
      ensures swapped - old(swapped) <= Log2(size)
    {
      DepthBound(ix, size);
      if ix > 0 && arr[ix].ts < arr[Parent(ix)].ts {
        HeapifyUp(ix);
      } else {
        HeapifyDown(ix);
      }
    }

    /** binary_heap_top. */
    method Top() returns (c: Connection?)
      requires Valid()
      ensures c == null <==> size == 0
      ensures c == null <==> held == {}
      ensures c != null ==> c == arr[0] && c in held && forall d :: d in held ==> c.ts <= d.ts
    {
      if size == 0 {
        assert held == {};
        return null;
      }
      c := arr[0];
      forall d | d in held
        ensures c.ts <= d.ts
      {
        RootIsEarliest(d.heapIx);
      }
    }

    /** The root is a minimum of the whole heap. */
    lemma {:induction false} RootIsEarliest(i: nat)
      requires Valid() && i < size
      ensures arr[0].ts <= arr[i].ts
      decreases i
    {
      if i > 0 {
        RootIsEarliest(Parent(i));
        assert InOrder(i);
      }
    }

    /** binary_heap_push of a record that already carries the slot it will be copied to. */
    method Push(c: Connection) returns (ok: bool)
      requires Valid() && c !in held && c.heapIx == size
      modifies this, arr, c`heapIx, held`heapIx
      ensures Valid()
      ensures ok <==> old(size) < arr.Length
      ensures ok ==> size == old(size) + 1 && held == old(held) + {c}
      ensures !ok ==> size == old(size) && held == old(held) && c.heapIx == old(c.heapIx)
      ensures swapped - old(swapped) <= if ok then Log2(size) else 0
    {
      hide Depth, Log2;
      if size >= arr.Length {
        return false;
      }
      arr[size] := c;
      size := size + 1;
      held := held + {c};
      forall j | 0 < j < size - 1
        ensures InOrder(j)
      {
        assert old(InOrder(j));
      }
      ok := true;
      HeapifyUp(size - 1);
      DepthBound(size - 1, size);
    }

    /** binary_heap_remove: takes out the record of slot `ix`, and no other, in at most one swap
        more than floor(log2) of the elements left. */
    method Remove(ix: nat) returns (c: Connection?)
      requires Valid()
      modifies this, arr, held`heapIx
      ensures Valid()
      ensures c == null <==> old(size) <= ix
      ensures c == null ==> size == old(size) && held == old(held)
      ensures c != null ==> c == old(arr[ix]) && c in old(held) && held == old(held) - {c} && size == old(size) - 1
      ensures swapped - old(swapped) <= if ix < size then 1 + Log2(size) else 0
    {
      if ix >= size {
        return null;
      }
      c := arr[ix];
      if ix != size - 1 {
        DropLast(ix);
        Update(ix);
      } else {
        DropLast(ix);
      }
    }

    /** The common part of binary_heap_remove and binary_heap_pop: the last record takes the slot
        of the removed one, where its key may be out of place. */
    method DropLast(ix: nat)
      requires Valid() && ix < size
      modifies this, arr, held`heapIx
      ensures Indexed() && size == old(size) - 1 && held == old(held) - {old(arr[ix])}
      ensures ix < size ==> OneOff(ix)
      ensures ix == size ==> Ordered()
      ensures swapped - old(swapped) == if ix < size then 1 else 0
    {
      size := size - 1;
      if ix != size {
        Swap(ix, size);
      }
      held := held - {arr[size]};
      OrderAfterDrop(ix);
    }

    twostate lemma OrderAfterDrop(ix: nat)
      requires old(Valid()) && Indexed() && size == old(size) - 1 && ix <= size
      requires forall k :: 0 <= k < size && k != ix ==> arr[k] == old(arr[k])
      requires forall c :: c in held ==> c in old(held) && c.ts == old(c.ts)
      ensures ix < size ==> OneOff(ix)
      ensures ix == size ==> Ordered()
    {
      forall j | 0 < j < size && j != ix && Parent(j) != ix
        ensures InOrder(j)
      {
        assert old(InOrder(j));
      }
      forall j | 0 < j < size && Parent(j) == ix && 0 < ix
        ensures arr[Parent(ix)].ts <= arr[j].ts
      {
        assert old(InOrder(j)) && old(InOrder(ix));
      }
    }

    /** binary_heap_pop: takes out a record with the earliest deadline. */
    method Pop() returns (c: Connection?)
      requires Valid()
      modifies this, arr, held`heapIx
      ensures Valid()
      ensures c == null <==> old(size) == 0
      ensures c == null ==> held == old(held)
      ensures c != null ==> c in old(held) && held == old(held) - {c} && size == old(size) - 1
      ensures c != null ==> forall d :: d in old(held) ==> c.ts <= d.ts
      ensures swapped - old(swapped) <= if size > 0 then 1 + Log2(size) else 1
    {
      c := Top();
      if c == null {
        return;
      }
      DropLast(0);
      HeapifyDown(0);
    }

    /** binary_heap_validate: compares one child per parent, and that is enough. */
    method Validate() returns (r: int)
      requires Indexed()
      ensures r == 0 || r == -1
      ensures r == 0 <==> Ordered()
    {
      if size < 2 {
        return 0;
      }
      var lastRoot := Parent(size - 1);
      var i: nat := 0;
      while i <= lastRoot
        invariant forall j :: 0 < j < size && Parent(j) < i ==> InOrder(j)
        invariant i <= lastRoot + 1
      {
        var child := EarlierChild(i);
        if arr[child].ts < arr[i].ts {
          assert !InOrder(child);
          return -1;
        }
        i := i + 1;
      }
      return 0;
    }

    /** Repeated binary_heap_pop: a non-decreasing enumeration, without repetition, of exactly
        the records held. */
    method Drain() returns (out: seq<Connection>)
      requires Valid()
      modifies this, arr, held`heapIx
      ensures Valid() && held == {} && size == 0
      ensures forall c :: c in out <==> c in old(held)
      ensures forall i, j :: 0 <= i < j < |out| ==> out[i] != out[j] && out[i].ts <= out[j].ts
    {
      out := [];
      while size > 0
        invariant Valid()
        invariant forall c :: c in old(held) <==> c in out || c in held
        invariant forall c :: c in out ==> c !in held
        invariant forall i, d :: 0 <= i < |out| && d in held ==> out[i].ts <= d.ts
        invariant forall i, j :: 0 <= i < j < |out| ==> out[i] != out[j] && out[i].ts <= out[j].ts
        decreases size
      {
        var c := Pop();
        out := out + [c];
      }
      assert held == {};
    }
  }
}

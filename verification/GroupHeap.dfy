/** The intrusive binary heaps of ready groups and readers.

  A heap is an array of member names together with each member's own `heapIndex`; a member
  outside the heap has none (-1 in the source). The loops are those of Go's container/heap
  over the scheduler's Less, Swap, Push and Pop, which keep the indices as they move members.
 */
module GroupHeap {
  import opened SchedulerState

  datatype ReadyHeap = ReadyHeap(slots: seq<string>, index: map<string, nat>)

  function Parent(i: nat): nat { if i == 0 then 0 else (i - 1) / 2 }

  /** Every member's back-index is its true slot. */
  ghost predicate Indexed(h: ReadyHeap) {
    (forall i :: 0 <= i < |h.slots| ==> h.slots[i] in h.index && h.index[h.slots[i]] == i)
    && (forall a :: a in h.index ==> h.index[a] < |h.slots| && h.slots[h.index[a]] == a)
  }

  ghost predicate Keyed(h: ReadyHeap, keys: map<string, Key>) {
    Indexed(h) && forall i :: 0 <= i < |h.slots| ==> h.slots[i] in keys
  }

  /** The member in slot `i` does not come before the one in slot `j`. */
  ghost predicate NotBefore(h: ReadyHeap, keys: map<string, Key>, i: int, j: int)
    requires Keyed(h, keys) && 0 <= i < |h.slots| && 0 <= j < |h.slots|
  {
    !Before(keys[h.slots[i]], keys[h.slots[j]])
  }

  ghost predicate Ordered(h: ReadyHeap, keys: map<string, Key>, n: nat)
    requires Keyed(h, keys) && n <= |h.slots|
  {
    forall i :: 0 < i < n ==> NotBefore(h, keys, i, Parent(i))
  }

  /** The heap holds exactly the keyed members, each knows its slot, and parents come first. */
  ghost predicate HeapOk(h: ReadyHeap, keys: map<string, Key>) {
    Keyed(h, keys) && h.index.Keys == keys.Keys && Ordered(h, keys, |h.slots|)
  }

  /** In order up to `n` but for slot `hole`, whose neighbours are in order without it. */
  ghost predicate OrderedAround(h: ReadyHeap, keys: map<string, Key>, n: nat, hole: nat)
    requires Keyed(h, keys) && n <= |h.slots| && hole < n
  {
    (forall i :: 0 < i < n && i != hole && Parent(i) != hole ==> NotBefore(h, keys, i, Parent(i)))
    && (forall i :: 0 < i < n && Parent(i) == hole && hole > 0 ==> NotBefore(h, keys, i, Parent(hole)))
  }

  lemma {:induction false} RootIsLeast(h: ReadyHeap, keys: map<string, Key>, i: nat)
    requires HeapOk(h, keys) && i < |h.slots|
    ensures NotBefore(h, keys, i, 0)
  {
    if i > 0 { RootIsLeast(h, keys, Parent(i)); }
  }

  /** With distinct turns the root is the one member that comes before all others. */
  lemma RootIsNext(h: ReadyHeap, keys: map<string, Key>)
    requires HeapOk(h, keys) && DistinctTurns(keys) && keys != map[]
    ensures h.slots != [] && IsLeast(keys, h.slots[0])
  {
    var a :| a in keys;
    assert a in h.index;
    forall b | b in keys && b != h.slots[0]
      ensures Before(keys[h.slots[0]], keys[b])
    {
      assert b in h.index;
      RootIsLeast(h, keys, h.index[b]);
    }
  }

  lemma NotBeforeIs(h: ReadyHeap, keys: map<string, Key>, i: nat, j: nat)
    requires Keyed(h, keys) && i < |h.slots| && j < |h.slots|
    ensures NotBefore(h, keys, i, j) <==> !Before(keys[h.slots[i]], keys[h.slots[j]])
  {
  }

  function Swapped(h: ReadyHeap, i: nat, j: nat): ReadyHeap
    requires i < |h.slots| && j < |h.slots|
  {
    ReadyHeap(h.slots[i := h.slots[j]][j := h.slots[i]], h.index[h.slots[j] := i][h.slots[i] := j])
  }

  lemma SwappedIndexed(h: ReadyHeap, i: nat, j: nat)
    requires Indexed(h) && i < |h.slots| && j < |h.slots|
    ensures Indexed(Swapped(h, i, j)) && Swapped(h, i, j).index.Keys == h.index.Keys
  {
  }

  lemma SwappedLeaves(h: ReadyHeap, i: nat, j: nat)
    requires i < |h.slots| && j < |h.slots|
    ensures |Swapped(h, i, j).slots| == |h.slots|
    ensures forall k :: 0 <= k < |h.slots| && k != i && k != j ==> Swapped(h, i, j).slots[k] == h.slots[k]
    ensures Swapped(h, i, j).slots[i] == h.slots[j] && Swapped(h, i, j).slots[j] == h.slots[i]
    ensures forall n :: i < n <= |h.slots| && j < n ==> Swapped(h, i, j).slots[n..] == h.slots[n..]
  {
  }

  lemma ParentsAreBefore()
    ensures forall i: nat :: i > 0 ==> 0 <= Parent(i) < i
    ensures Parent(0) == 0
  {
  }

  lemma KeysInOrder()
    ensures forall a, b, c :: !Before(a, b) && !Before(b, c) ==> !Before(a, c)
    ensures forall a, b :: Before(a, b) ==> !Before(b, a)
  {
  }

  /** Swapping a slot with its parent moves the hole up to that parent. */
  lemma UpStep(h: ReadyHeap, keys: map<string, Key>, n: nat, i: nat, j: nat)
    requires Keyed(h, keys) && 0 < j < n <= |h.slots| && i == Parent(j) && OrderedAround(h, keys, n, j)
    requires forall k :: 0 < k < n && Parent(k) == j ==> NotBefore(h, keys, k, j)
    requires !NotBefore(h, keys, j, i)
    ensures var r := Swapped(h, i, j);
            Keyed(r, keys) && OrderedAround(r, keys, n, i)
            && (forall k :: 0 < k < n && Parent(k) == i ==> NotBefore(r, keys, k, i))
            && |r.slots| == |h.slots| && r.slots[n..] == h.slots[n..] && r.index.Keys == h.index.Keys
  {
    SwappedIndexed(h, i, j);
    SwappedLeaves(h, i, j);
    ParentsAreBefore();
    hide Indexed, Swapped, Parent;
    RaisedHole(h, Swapped(h, i, j), keys, n, i, j);
  }

  ghost predicate Exchanged(h: ReadyHeap, r: ReadyHeap, n: nat, i: nat, j: nat) {
    i < n <= |h.slots| && j < n && |r.slots| == |h.slots| && r.slots[i] == h.slots[j] && r.slots[j] == h.slots[i]
    && forall k :: 0 <= k < n && k != i && k != j ==> r.slots[k] == h.slots[k]
  }

  lemma RaisedHole(h: ReadyHeap, r: ReadyHeap, keys: map<string, Key>, n: nat, i: nat, j: nat)
    requires Keyed(h, keys) && Keyed(r, keys) && 0 < j < n && i == Parent(j) && Exchanged(h, r, n, i, j)
    requires OrderedAround(h, keys, n, j) && !NotBefore(h, keys, j, i)
    requires forall k :: 0 < k < n && Parent(k) == j ==> NotBefore(h, keys, k, j)
    ensures OrderedAround(r, keys, n, i) && forall k :: 0 < k < n && Parent(k) == i ==> NotBefore(r, keys, k, i)
  {
    ParentsAreBefore();
    KeysInOrder();
    hide Indexed, Before, Parent;
    assert i > 0 ==> NotBefore(h, keys, i, Parent(i));
    forall k | 0 < k < n && Parent(k) == i ensures NotBefore(r, keys, k, i) && (i > 0 ==> NotBefore(r, keys, k, Parent(i))) {
      if k != j { assert NotBefore(h, keys, k, i); }
    }
    forall k | 0 < k < n && k != i && Parent(k) != i ensures NotBefore(r, keys, k, Parent(k)) {
      if Parent(k) != j { assert NotBefore(h, keys, k, Parent(k)); }
    }
  }

  /** A hole in its place is no hole. */
  lemma HoleFilled(h: ReadyHeap, keys: map<string, Key>, n: nat, hole: nat)
    requires Keyed(h, keys) && hole < n <= |h.slots| && OrderedAround(h, keys, n, hole)
    requires forall i :: 0 < i < n && Parent(i) == hole ==> NotBefore(h, keys, i, hole)
    requires hole > 0 ==> NotBefore(h, keys, hole, Parent(hole))
    ensures Ordered(h, keys, n)
  {
  }

  /** Move the member in slot `start` towards the root until its parent comes first. */
  method Up(h: ReadyHeap, keys: map<string, Key>, start: nat, ghost n: nat) returns (r: ReadyHeap)
    requires Keyed(h, keys) && start < n <= |h.slots| && OrderedAround(h, keys, n, start)
    requires forall i :: 0 < i < n && Parent(i) == start ==> NotBefore(h, keys, i, start)
    ensures Keyed(r, keys) && |r.slots| == |h.slots| && r.index.Keys == h.index.Keys
    ensures r.slots[n..] == h.slots[n..] && Ordered(r, keys, n)
  {
    hide Indexed, Swapped, Before, OrderedAround, NotBefore;
    r := h;
    var j := start;
    while true
      invariant 0 <= j < n && Keyed(r, keys) && |r.slots| == |h.slots| && r.index.Keys == h.index.Keys
      invariant r.slots[n..] == h.slots[n..]
      invariant OrderedAround(r, keys, n, j)
      invariant forall i :: 0 < i < n && Parent(i) == j ==> NotBefore(r, keys, i, j)
      decreases j
    {
      var i := Parent(j);
      if i == j || !Before(keys[r.slots[j]], keys[r.slots[i]]) {
        assert j > 0 ==> NotBefore(r, keys, j, i) by { NotBeforeIs(r, keys, j, i); }
        HoleFilled(r, keys, n, j);
        return;
      }
      NotBeforeIs(r, keys, j, i);
      UpStep(r, keys, n, i, j);
      r := Swapped(r, i, j);
      j := i;
    }
  }

  /** Swapping a slot with its first child moves the hole down to that child. */
  lemma DownStep(h: ReadyHeap, keys: map<string, Key>, n: nat, i: nat, j: nat)
    requires Keyed(h, keys) && i < j < n <= |h.slots| && Parent(j) == i && OrderedAround(h, keys, n, i)
    requires !NotBefore(h, keys, j, i)
    requires forall k :: 0 < k < n && Parent(k) == i ==> NotBefore(h, keys, k, j)
    ensures Keyed(Swapped(h, i, j), keys) && OrderedAround(Swapped(h, i, j), keys, n, j)
    ensures NotBefore(Swapped(h, i, j), keys, j, Parent(j))
    ensures var r := Swapped(h, i, j); |r.slots| == |h.slots| && r.slots[n..] == h.slots[n..] && r.index.Keys == h.index.Keys
  {
    SwappedIndexed(h, i, j);
    SwappedLeaves(h, i, j);
    ParentsAreBefore();
    hide Indexed, Swapped, Parent;
    LoweredHole(h, Swapped(h, i, j), keys, n, i, j);
  }

  lemma LoweredHole(h: ReadyHeap, r: ReadyHeap, keys: map<string, Key>, n: nat, i: nat, j: nat)
    requires Keyed(h, keys) && Keyed(r, keys) && i < j < n && Parent(j) == i && Exchanged(h, r, n, i, j)
    requires OrderedAround(h, keys, n, i) && !NotBefore(h, keys, j, i)
    requires forall k :: 0 < k < n && Parent(k) == i ==> NotBefore(h, keys, k, j)
    ensures OrderedAround(r, keys, n, j) && NotBefore(r, keys, j, i)
  {
    ParentsAreBefore();
    KeysInOrder();
    hide Indexed, Before, Parent;
    forall k | 0 < k < n && k != j && Parent(k) != j ensures NotBefore(r, keys, k, Parent(k)) {
      if Parent(k) == i {
        assert NotBefore(h, keys, k, j);
      } else if k == i {
        assert NotBefore(h, keys, j, Parent(i));
      } else {
        assert NotBefore(h, keys, k, Parent(k));
      }
    }
    forall k | 0 < k < n && Parent(k) == j ensures NotBefore(r, keys, k, i) {
      assert NotBefore(h, keys, k, j);
    }
  }

  lemma FirstChildBounds(h: ReadyHeap, keys: map<string, Key>, n: nat, i: nat, j: nat)
    requires Keyed(h, keys) && i < j < n <= |h.slots| && NotBefore(h, keys, j, i)
    requires forall k :: 0 < k < n && Parent(k) == i ==> NotBefore(h, keys, k, j)
    ensures forall k :: 0 < k < n && Parent(k) == i ==> NotBefore(h, keys, k, i)
  {
  }

  /** Move the member in slot `start` away from the root while a child comes before it. */
  method Down(h: ReadyHeap, keys: map<string, Key>, start: nat, n: nat) returns (r: ReadyHeap, moved: bool)
    requires Keyed(h, keys) && start < n <= |h.slots| && OrderedAround(h, keys, n, start)
    ensures Keyed(r, keys) && |r.slots| == |h.slots| && r.index.Keys == h.index.Keys && r.slots[n..] == h.slots[n..]
    ensures moved ==> Ordered(r, keys, n)
    ensures !moved ==> r == h && forall i :: 0 < i < n && Parent(i) == start ==> NotBefore(h, keys, i, start)
  {
    hide Indexed, Swapped, OrderedAround;
    r := h;
    var i := start;
    while true
      invariant start <= i < n && Keyed(r, keys) && |r.slots| == |h.slots| && r.index.Keys == h.index.Keys
      invariant r.slots[n..] == h.slots[n..] && (i == start ==> r == h)
      invariant OrderedAround(r, keys, n, i)
      invariant i > start ==> NotBefore(r, keys, i, Parent(i))
      decreases n - i
    {
      var j := 2 * i + 1;
      assert Keyed(r, keys);
      if j >= n {
        if i > start { HoleFilled(r, keys, n, i); }
        break;
      }
      if j + 1 < n && Before(keys[r.slots[j + 1]], keys[r.slots[j]]) {
        j := j + 1;
      }
      assert forall k :: 0 < k < n && Parent(k) == i ==> NotBefore(r, keys, k, j);
      if !Before(keys[r.slots[j]], keys[r.slots[i]]) {
        FirstChildBounds(r, keys, n, i, j);
        if i > start { HoleFilled(r, keys, n, i); }
        break;
      }
      DownStep(r, keys, n, i, j);
      r := Swapped(r, i, j);
      i := j;
    }
    moved := i > start;
  }

  // ---------- The operations ----------

  method Push(h: ReadyHeap, keys: map<string, Key>, a: string) returns (r: ReadyHeap)
    requires a in keys && a !in h.index && HeapOk(h, keys - {a})
    ensures HeapOk(r, keys)
  {
    hide HeapOk, Keyed, OrderedAround, NotBefore, Ordered, Indexed, Parent, Before;
    var n := |h.slots|;
    r := ReadyHeap(h.slots + [a], h.index[a := n]);
    Appended(h, keys, a);
    r := Up(r, keys, n, n + 1);
    HeapIs(r, keys);
  }

  lemma Appended(h: ReadyHeap, keys: map<string, Key>, a: string)
    requires a in keys && a !in h.index && HeapOk(h, keys - {a})
    ensures var r, n := ReadyHeap(h.slots + [a], h.index[a := |h.slots|]), |h.slots|;
            Keyed(r, keys) && r.index.Keys == keys.Keys && OrderedAround(r, keys, n + 1, n)
            && forall i :: 0 < i < n + 1 && Parent(i) == n ==> NotBefore(r, keys, i, n)
  {
    hide Before, Parent;
    ParentsAreBefore();
    var n := |h.slots|;
    var r := ReadyHeap(h.slots + [a], h.index[a := n]);
    assert forall i :: 0 <= i < n ==> r.slots[i] == h.slots[i] && h.slots[i] in h.index;
    assert Keyed(r, keys) && r.index.Keys == keys.Keys;
    assert forall i :: 0 < i < n ==> NotBefore(h, keys - {a}, i, Parent(i));
  }

  lemma HeapIs(h: ReadyHeap, keys: map<string, Key>)
    requires Keyed(h, keys) && h.index.Keys == keys.Keys && Ordered(h, keys, |h.slots|)
    ensures HeapOk(h, keys)
  {
  }

  /** The last slot leaves the array and its member loses its index. */
  function DropLast(h: ReadyHeap): ReadyHeap
    requires h.slots != []
  {
    ReadyHeap(h.slots[..|h.slots| - 1], h.index - {h.slots[|h.slots| - 1]})
  }

  lemma DropLastOk(h: ReadyHeap, keys: map<string, Key>)
    requires Keyed(h, keys) && h.slots != [] && h.index.Keys == keys.Keys && Ordered(h, keys, |h.slots| - 1)
    ensures HeapOk(DropLast(h), keys - {h.slots[|h.slots| - 1]})
  {
    var n := |h.slots| - 1;
    var r := DropLast(h);
    assert forall i :: 0 <= i < n ==> r.slots[i] == h.slots[i] && h.slots[i] != h.slots[n];
    assert forall i :: 0 < i < n ==> NotBefore(h, keys, i, Parent(i));
  }

  /** Take the member in slot `at` out, wherever it is. */
  method Remove(h: ReadyHeap, keys: map<string, Key>, at: nat) returns (r: ReadyHeap)
    requires HeapOk(h, keys) && at < |h.slots|
    ensures HeapOk(r, keys - {h.slots[at]}) && h.slots[at] !in r.index
  {
    hide Before, OrderedAround, Parent, Ordered, NotBefore, Indexed, Swapped;
    SwappedLeaves(h, at, |h.slots| - 1);
    var n := |h.slots| - 1;
    r := h;
    if n != at {
      LastInPlace(h, keys, at);
      r := Swapped(h, at, n);
      var moved: bool;
      ghost var swapped := r;
      r, moved := Down(r, keys, at, n);
      if !moved {
        r := Up(r, keys, at, n);
      }
      assert r.slots[n..][0] == swapped.slots[n..][0];
    }
    if n == at { OrderedLess(h, keys); }
    DropLastOk(r, keys);
    r := DropLast(r);
  }

  lemma OrderedLess(h: ReadyHeap, keys: map<string, Key>)
    requires HeapOk(h, keys) && h.slots != []
    ensures Ordered(h, keys, |h.slots| - 1)
  {
    hide Before, Parent;
  }

  /** After the swap only the slot refilled with the last member can be out of order. */
  lemma LastInPlace(h: ReadyHeap, keys: map<string, Key>, at: nat)
    requires HeapOk(h, keys) && at < |h.slots| - 1
    ensures Keyed(Swapped(h, at, |h.slots| - 1), keys)
    ensures OrderedAround(Swapped(h, at, |h.slots| - 1), keys, |h.slots| - 1, at)
    ensures Swapped(h, at, |h.slots| - 1).index.Keys == h.index.Keys
  {
    hide Indexed, Swapped, NotBefore, OrderedAround, Ordered, Parent, Before;
    var n := |h.slots| - 1;
    SwappedIndexed(h, at, n);
    SwappedLeaves(h, at, n);
    HoleLeft(h, Swapped(h, at, n), keys, n, at);
  }

  lemma HoleLeft(h: ReadyHeap, r: ReadyHeap, keys: map<string, Key>, n: nat, at: nat)
    requires Keyed(h, keys) && Keyed(r, keys) && at < n < |h.slots| == |r.slots| && Ordered(h, keys, |h.slots|)
    requires forall i :: 0 <= i < n && i != at ==> r.slots[i] == h.slots[i]
    ensures OrderedAround(r, keys, n, at)
  {
    hide Indexed, Before, Parent;
    KeysInOrder();
    ParentsAreBefore();
    forall i | 0 < i < n && i != at && Parent(i) != at ensures NotBefore(r, keys, i, Parent(i)) {
      assert NotBefore(h, keys, i, Parent(i));
    }
    forall i | 0 < i < n && Parent(i) == at && at > 0 ensures NotBefore(r, keys, i, Parent(at)) {
      assert NotBefore(h, keys, i, at) && NotBefore(h, keys, at, Parent(at));
    }
  }

  method Pop(h: ReadyHeap, keys: map<string, Key>) returns (r: ReadyHeap, a: string)
    requires HeapOk(h, keys) && DistinctTurns(keys) && keys != map[]
    ensures IsLeast(keys, a) && HeapOk(r, keys - {a}) && a !in r.index
  {
    hide DistinctTurns, IsLeast, Before, OrderedAround, Parent, Ordered, NotBefore, Indexed, Swapped;
    RootIsNext(h, keys);
    SwappedLeaves(h, 0, |h.slots| - 1);
    a := h.slots[0];
    var n := |h.slots| - 1;
    r := h;
    if n > 0 {
      LastInPlace(h, keys, 0);
      r := Swapped(h, 0, n);
      ghost var swapped := r;
      var moved: bool;
      r, moved := Down(r, keys, 0, n);
      if !moved { HoleFilled(r, keys, n, 0); }
      assert r.slots[n..][0] == swapped.slots[n..][0];
    }
    if n == 0 { OrderedLess(h, keys); }
    DropLastOk(r, keys);
    r := DropLast(r);
  }

  /** Restore order after the key of one member changed. */
  method Fix(h: ReadyHeap, was: map<string, Key>, keys: map<string, Key>, at: nat) returns (r: ReadyHeap)
    requires HeapOk(h, was) && at < |h.slots| && keys.Keys == was.Keys
    requires forall a :: a in keys && a != h.slots[at] ==> keys[a] == was[a]
    ensures HeapOk(r, keys)
  {
    assert forall i :: 0 < i < |h.slots| ==> NotBefore(h, was, i, Parent(i));
    assert forall i :: 0 <= i < |h.slots| && i != at ==> keys[h.slots[i]] == was[h.slots[i]];
    var moved: bool;
    r, moved := Down(h, keys, at, |h.slots|);
    if !moved {
      r := Up(r, keys, at, |h.slots|);
    }
  }
}

/** The two levels of heaps beside the groups: who has work, in the order of their turns. */
module ReadyHeaps {
  import opened SchedulerState
  import Heap = GroupHeap

  type ReadyHeap = Heap.ReadyHeap

  // ---------- Heap keys after one change ----------

  lemma ReadyReadersSet(g: Group, r: string, rd: Reader)
    ensures ReadyReaders(g.(readers := g.readers[r := rd]))
         == if rd.queue == [] then ReadyReaders(g) - {r} else ReadyReaders(g)[r := ReaderKey(rd)]
  {
  }

  lemma ReadyGroupsSet(groups: map<string, Group>, c: string, g: Group)
    ensures ReadyGroups(groups[c := g])
         == if g.waiting <= 0 then ReadyGroups(groups) - {c} else ReadyGroups(groups)[c := GroupKey(g)]
  {
  }

  lemma LeastUnique(keys: map<string, Key>, a: string, b: string)
    requires IsLeast(keys, a) && IsLeast(keys, b)
    ensures a == b
  {
    assert a != b ==> Before(keys[a], keys[b]);
  }

  // ---------- Heaps of who has work ----------

  /** Groups and readers are in their heaps exactly when they have queued work. */
  ghost predicate HeapsFit(groups: map<string, Group>, ready: ReadyHeap, readerReady: map<string, ReadyHeap>) {
    Heap.HeapOk(ready, ReadyGroups(groups)) && readerReady.Keys == groups.Keys
    && forall c :: c in groups ==> Heap.HeapOk(readerReady[c], ReadyReaders(groups[c]))
  }

  lemma HeapsFitAt(groups: map<string, Group>, ready: ReadyHeap, readerReady: map<string, ReadyHeap>, c: string)
    requires HeapsFit(groups, ready, readerReady)
    ensures Heap.HeapOk(ready, ReadyGroups(groups))
    ensures c in groups ==> c in readerReady && Heap.HeapOk(readerReady[c], ReadyReaders(groups[c]))
  {
  }

  lemma HeapsFitSet(groups: map<string, Group>, ready: ReadyHeap, readerReady: map<string, ReadyHeap>,
                    c: string, g: Group, ready': ReadyHeap, readers': ReadyHeap)
    requires HeapsFit(groups, ready, readerReady)
    requires Heap.HeapOk(ready', ReadyGroups(groups[c := g])) && Heap.HeapOk(readers', ReadyReaders(g))
    ensures HeapsFit(groups[c := g], ready', readerReady[c := readers'])
  {
    hide Heap.HeapOk;
  }

  /** All but this group's own heap of readers. */
  ghost predicate FitBut(groups: map<string, Group>, readerReady: map<string, ReadyHeap>, c: string) {
    readerReady.Keys == groups.Keys
    && forall d :: d in groups && d != c ==> Heap.HeapOk(readerReady[d], ReadyReaders(groups[d]))
  }

  lemma FitAgain(was: map<string, Group>, groups: map<string, Group>, readerReady: map<string, ReadyHeap>,
                 c: string, ready': ReadyHeap, readers': ReadyHeap)
    requires c in was && c in groups && groups == was[c := groups[c]] && FitBut(was, readerReady, c)
    requires Heap.HeapOk(ready', ReadyGroups(groups)) && Heap.HeapOk(readers', ReadyReaders(groups[c]))
    ensures HeapsFit(groups, ready', readerReady[c := readers'])
  {
    hide Heap.HeapOk;
  }

  // ---------- One member at a time ----------

  lemma SameKey(keys: map<string, Key>, a: string)
    ensures a in keys ==> keys[a := keys[a]] == keys
  {
  }

  lemma SameReaders(g: Group, g': Group)
    requires g.readers == g'.readers
    ensures ReadyReaders(g) == ReadyReaders(g')
  {
  }

  /** heap.Remove at the member's own index. */
  method RemoveFrom(h: ReadyHeap, keys: map<string, Key>, a: string) returns (r: ReadyHeap)
    requires Heap.HeapOk(h, keys) && a in keys
    ensures Heap.HeapOk(r, keys - {a}) && a !in r.index
  {
    assert a in h.index;
    r := Heap.Remove(h, keys, h.index[a]);
  }

  method Rejoin(h: ReadyHeap, keys: map<string, Key>, a: string) returns (r: ReadyHeap)
    requires a in keys && Heap.HeapOk(h, keys - {a})
    ensures Heap.HeapOk(r, keys)
  {
    assert a !in h.index by { assert h.index.Keys == (keys - {a}).Keys; }
    r := Heap.Push(h, keys, a);
  }

  // ---------- Both levels ----------

  /** The heaps once a reader's queue and its group have one waiter fewer. */
  method ShrunkHeaps(groups: map<string, Group>, ready: ReadyHeap, readerReady: map<string, ReadyHeap>,
                     c: string, r: string, rd: Reader, g: Group)
    returns (ready': ReadyHeap, readerReady': map<string, ReadyHeap>)
    requires c in groups && r in groups[c].readers && groups[c].readers[r].queue != [] && groups[c].waiting > 0
    requires rd == groups[c].readers[r].(queue := rd.queue)
    requires g == groups[c].(waiting := groups[c].waiting - 1, readers := groups[c].readers[r := rd])
    requires HeapsFit(groups, ready, readerReady)
    ensures HeapsFit(groups[c := g], ready', readerReady')
  {
    HeapsFitAt(groups, ready, readerReady, c);
    hide Heap.HeapOk, HeapsFit;
    ready' := ready;
    var readers := readerReady[c];
    ReadyReadersSet(groups[c], r, rd);
    SameReaders(g, groups[c].(readers := groups[c].readers[r := rd]));
    if rd.queue == [] {
      readers := RemoveFrom(readers, ReadyReaders(groups[c]), r);
    } else {
      SameKey(ReadyReaders(groups[c]), r);
    }
    ReadyGroupsSet(groups, c, g);
    if g.waiting == 0 {
      ready' := RemoveFrom(ready, ReadyGroups(groups), c);
    } else {
      SameKey(ReadyGroups(groups), c);
    }
    HeapsFitSet(groups, ready, readerReady, c, g, ready', readers);
    readerReady' := readerReady[c := readers];
  }

  /** Take the next group, and its next reader, off the heaps. */
  method PopHeaps(groups: map<string, Group>, ready: ReadyHeap, readerReady: map<string, ReadyHeap>)
    returns (c: string, r: string, ready': ReadyHeap, readers': ReadyHeap)
    requires HeapsFit(groups, ready, readerReady) && ReadyGroups(groups) != map[] && DistinctTurns(ReadyGroups(groups))
    requires forall d :: d in ReadyGroups(groups) ==>
               ReadyReaders(groups[d]) != map[] && DistinctTurns(ReadyReaders(groups[d]))
    ensures IsLeast(ReadyGroups(groups), c) && IsLeast(ReadyReaders(groups[c]), r)
    ensures FirstGroup(groups, c) && FirstReader(groups[c], r)
    ensures Heap.HeapOk(ready', ReadyGroups(groups) - {c}) && Heap.HeapOk(readers', ReadyReaders(groups[c]) - {r})
  {
    hide Heap.HeapOk;
    ready', c := Heap.Pop(ready, ReadyGroups(groups));
    readers', r := Heap.Pop(readerReady[c], ReadyReaders(groups[c]));
    FirstAmongGroups(groups, c);
    FirstAmongReaders(groups[c], r);
  }

  /** Put a popped reader and group back on their heaps if they still have work. */
  method RejoinHeaps(ghost was: map<string, Group>, groups: map<string, Group>, ready: ReadyHeap, readers: ReadyHeap,
                     readerReady: map<string, ReadyHeap>, c: string, r: string)
    returns (ready': ReadyHeap, readerReady': map<string, ReadyHeap>)
    requires c in was && c in groups && r in was[c].readers && r in groups[c].readers && groups == was[c := groups[c]]
    requires groups[c].readers == was[c].readers[r := groups[c].readers[r]]
    requires FitBut(was, readerReady, c)
    requires Heap.HeapOk(ready, ReadyGroups(was) - {c}) && Heap.HeapOk(readers, ReadyReaders(was[c]) - {r})
    ensures HeapsFit(groups, ready', readerReady')
  {
    hide Heap.HeapOk, HeapsFit, FitBut;
    var rd := groups[c].readers[r];
    var keys := ReadyReaders(groups[c]);
    SameReaders(groups[c], was[c].(readers := was[c].readers[r := rd]));
    ReadyReadersSet(was[c], r, rd);
    assert keys - {r} == ReadyReaders(was[c]) - {r};
    var readers' := readers;
    if rd.queue != [] {
      readers' := Rejoin(readers, keys, r);
    }
    ready' := ready;
    ReadyGroupsSet(was, c, groups[c]);
    assert ReadyGroups(groups) - {c} == ReadyGroups(was) - {c};
    if groups[c].waiting > 0 {
      ready' := Rejoin(ready, ReadyGroups(groups), c);
    }
    readerReady' := readerReady[c := readers'];
    FitAgain(was, groups, readerReady, c, ready', readers');
  }

  lemma HeapsFitBut(groups: map<string, Group>, ready: ReadyHeap, readerReady: map<string, ReadyHeap>)
    requires HeapsFit(groups, ready, readerReady)
    ensures forall c :: c in groups ==> FitBut(groups, readerReady, c)
  {
    hide Heap.HeapOk;
  }

  lemma HeapEmpty(groups: map<string, Group>, ready: ReadyHeap, readerReady: map<string, ReadyHeap>)
    requires HeapsFit(groups, ready, readerReady)
    ensures ready.slots == [] <==> ReadyGroups(groups) == map[]
  {
    if ready.slots != [] {
      assert ready.slots[0] in ready.index;
    }
    if ReadyGroups(groups) != map[] {
      var c :| c in ReadyGroups(groups);
      assert c in ready.index;
    }
  }

  /** The heaps once the service of a reader and of its group changed, for those that are in them. */
  method FixedHeaps(groups: map<string, Group>, ready: ReadyHeap, readerReady: map<string, ReadyHeap>,
                    c: string, r: string, rd: Reader, g: Group)
    returns (ready': ReadyHeap, readerReady': map<string, ReadyHeap>)
    requires c in groups && r in groups[c].readers && rd.queue == groups[c].readers[r].queue
    requires g.waiting == groups[c].waiting && g.readers == groups[c].readers[r := rd]
    requires HeapsFit(groups, ready, readerReady)
    ensures HeapsFit(groups[c := g], ready', readerReady')
  {
    HeapsFitAt(groups, ready, readerReady, c);
    hide HeapsFit, Heap.HeapOk, ReadyReaders, ReadyGroups;
    OneReaderKey(groups[c], g, r);
    OneGroupKey(groups, c, g);
    var readers := FixAt(readerReady[c], ReadyReaders(groups[c]), ReadyReaders(g), r);
    ready' := FixAt(ready, ReadyGroups(groups), ReadyGroups(groups[c := g]), c);
    HeapsFitSet(groups, ready, readerReady, c, g, ready', readers);
    readerReady' := readerReady[c := readers];
  }

  /** Same members, and at most one of them with another key. */
  ghost predicate OneKeyApart(was: map<string, Key>, keys: map<string, Key>, a: string) {
    keys.Keys == was.Keys && forall b :: b in keys && b != a ==> keys[b] == was[b]
  }

  lemma OneReaderKey(was: Group, g: Group, r: string)
    requires r in was.readers && r in g.readers && g.readers[r].queue == was.readers[r].queue
    requires g.readers == was.readers[r := g.readers[r]]
    ensures OneKeyApart(ReadyReaders(was), ReadyReaders(g), r)
  {
  }

  lemma OneGroupKey(groups: map<string, Group>, c: string, g: Group)
    requires c in groups && g.waiting == groups[c].waiting
    ensures OneKeyApart(ReadyGroups(groups), ReadyGroups(groups[c := g]), c)
  {
  }

  /** heap.Fix at the member's own index, if it is in the heap. */
  method FixAt(h: ReadyHeap, was: map<string, Key>, keys: map<string, Key>, a: string) returns (r: ReadyHeap)
    requires Heap.HeapOk(h, was) && OneKeyApart(was, keys, a)
    ensures Heap.HeapOk(r, keys)
  {
    if a in h.index {
      r := Heap.Fix(h, was, keys, h.index[a]);
    } else {
      assert keys == was;
      r := h;
    }
  }

  /** A newcomer's base group: the one present, or an empty one about to be. */
  ghost predicate BaseGroup(groups: map<string, Group>, c: string, g: Group) {
    if c in groups then g == groups[c] else g.readers == map[] && g.waiting == 0
  }

  lemma BaseHeap(groups: map<string, Group>, ready: ReadyHeap, readerReady: map<string, ReadyHeap>, c: string, g: Group)
    requires HeapsFit(groups, ready, readerReady) && BaseGroup(groups, c, g)
    ensures Heap.HeapOk(ready, ReadyGroups(groups))
    ensures if c in groups then c in readerReady && Heap.HeapOk(readerReady[c], ReadyReaders(g))
            else Heap.HeapOk(Heap.ReadyHeap([], map[]), ReadyReaders(g))
  {
    hide ReaderKey, GroupKey;
    HeapsFitAt(groups, ready, readerReady, c);
    if c !in groups { assert ReadyReaders(g) == map[]; }
  }

  /** The heaps once a newcomer joined reader `r` of community `c`. */
  method GrownHeaps(groups: map<string, Group>, ready: ReadyHeap, readerReady: map<string, ReadyHeap>,
                    c: string, r: string, ghost g: Group, g': Group)
    returns (ready': ReadyHeap, readerReady': map<string, ReadyHeap>)
    requires HeapsFit(groups, ready, readerReady) && BaseGroup(groups, c, g)
    requires r in g'.readers && g'.readers == g.readers[r := g'.readers[r]] && g'.readers[r].queue != [] && g'.waiting > 0
    requires r in ReadyReaders(g) ==> ReaderKey(g'.readers[r]) == ReadyReaders(g)[r]
    requires c in ReadyGroups(groups) ==> GroupKey(g') == ReadyGroups(groups)[c]
    ensures HeapsFit(groups[c := g'], ready', readerReady')
  {
    hide HeapsFit, Heap.HeapOk, ReadyReaders, ReadyGroups, ReaderKey, GroupKey, BaseGroup;
    BaseHeap(groups, ready, readerReady, c, g);
    var readers := Heap.ReadyHeap([], map[]);
    if c in groups {
      readers := readerReady[c];
    }
    ReadyReadersSet(g, r, g'.readers[r]);
    SameReaders(g', g.(readers := g'.readers));
    ReadyGroupsSet(groups, c, g');
    var readers' := JoinAt(readers, ReadyReaders(g), ReadyReaders(g'), r);
    ready' := JoinAt(ready, ReadyGroups(groups), ReadyGroups(groups[c := g']), c);
    HeapsFitSet(groups, ready, readerReady, c, g', ready', readers');
    readerReady' := readerReady[c := readers'];
  }

  /** Push a member that is not in its heap yet. */
  method JoinAt(h: ReadyHeap, ghost was: map<string, Key>, keys: map<string, Key>, a: string) returns (r: ReadyHeap)
    requires Heap.HeapOk(h, was) && a in keys && keys == was[a := keys[a]] && (a in was ==> keys[a] == was[a])
    ensures Heap.HeapOk(r, keys)
  {
    assert a in was <==> a in h.index;
    if a in h.index {
      assert keys == was;
      r := h;
    } else {
      assert keys - {a} == was;
      r := Heap.Push(h, keys, a);
    }
  }
}

/** The scheduler itself: fields changed in place under its lock, with real heaps and history.

  Each method is one stretch of code that holds the lock, or part of one, and is proved to
  take the abstract state through the step of SchedulerEvents that it implements. What is
  added here is the two levels of heaps, with every member's back-index, and the map beside
  the recency list of remembered debt.
 */
module SearchScheduler {
  import opened SchedulerState
  import opened SchedulerSteps
  import opened SchedulerInvariant
  import opened SchedulerEvents
  import opened ReadyHeaps
  import Heap = GroupHeap

  // ---------- History: a map beside a recency list ----------

  ghost predicate DistinctKeys(lru: seq<History>) {
    forall i, j :: 0 <= i < j < |lru| ==> lru[i].key != lru[j].key
  }

  ghost predicate Matches(history: map<HistoryKey, History>, lru: seq<History>) {
    DistinctKeys(lru)
    && (forall h :: h in lru ==> h.key in history && history[h.key] == h)
    && (forall k :: k in history ==> history[k] in lru && history[k].key == k)
  }

  // ---------- Choosing who makes room ----------

  /** The longest queue in `g` above the minimum, in whatever order the map is scanned. */
  method LongestReader(g: Group, minimum: int) returns (largest: Option<string>)
    ensures largest.Some? ==> IsLongestReader(g, minimum, largest.value)
    ensures largest.None? ==> NoLongerReader(g, minimum)
  {
    largest := None;
    var rest := g.readers.Keys;
    while rest != {}
      invariant rest <= g.readers.Keys
      invariant largest.Some? ==> largest.value in g.readers && |g.readers[largest.value].queue| > Max(0, minimum)
      invariant largest.Some? ==> forall r :: r in g.readers.Keys - rest ==>
                  |g.readers[r].queue| <= |g.readers[largest.value].queue|
      invariant largest.None? ==> forall r :: r in g.readers.Keys - rest ==> |g.readers[r].queue| <= Max(0, minimum)
      decreases rest
    {
      var r :| r in rest;
      if |g.readers[r].queue| > Max(0, minimum)
         && (largest.None? || |g.readers[r].queue| > |g.readers[largest.value].queue|) {
        largest := Some(r);
      }
      rest := rest - {r};
    }
  }

  /** The community waiting for most, among those that wait for more than one above `own`. */
  method LargestGroup(groups: map<string, Group>, own: int) returns (largest: Option<string>)
    ensures largest.Some? ==> largest.value in groups && groups[largest.value].waiting > own + 1
                              && forall o :: o in groups ==> groups[o].waiting <= groups[largest.value].waiting
    ensures largest.None? ==> forall o :: o in groups ==> groups[o].waiting <= own + 1
  {
    largest := None;
    var rest := groups.Keys;
    while rest != {}
      invariant rest <= groups.Keys
      invariant largest.Some? ==> largest.value in groups && groups[largest.value].waiting > own + 1
      invariant largest.Some? ==> forall o :: o in groups.Keys - rest ==> groups[o].waiting <= groups[largest.value].waiting
      invariant largest.None? ==> forall o :: o in groups.Keys - rest ==> groups[o].waiting <= own + 1
      decreases rest
    {
      var o :| o in rest;
      if groups[o].waiting > own + 1 && (largest.None? || groups[o].waiting > groups[largest.value].waiting) {
        largest := Some(o);
      }
      rest := rest - {o};
    }
  }

  class SearchScheduler {
    const budget: Budget
    var groups: map<string, Group>
    var ready: ReadyHeap
    var readerReady: map<string, ReadyHeap>
    var waiters: map<Wid, Waiter>
    var history: map<HistoryKey, History>
    var historyLRU: seq<History>
    var active: int
    var waiting: int
    var waitingBytes: int
    var clock: int
    var order: int
    var completed: int
    var rejected: int
    var expired: int
    var cancelled: int
    ghost var log: seq<string>
    ghost var touches: seq<Touch>

    ghost function Abs(): State
      reads this
    {
      State(budget, groups, waiters, historyLRU, active, waiting, waitingBytes, clock, order,
            completed, rejected, expired, cancelled, log, touches)
    }

    ghost predicate Consistent()
      reads this
    {
      HeapsFit(groups, ready, readerReady) && Matches(history, historyLRU)
    }

    /** The invariant at every release of the lock. */
    ghost predicate Valid()
      reads this
    {
      Inv(Abs()) && Consistent()
    }

    constructor (b: Budget)
      ensures Valid() && Abs() == Init(b)
    {
      budget := b;
      groups, readerReady, waiters, history := map[], map[], map[], map[];
      ready := Heap.ReadyHeap([], map[]);
      historyLRU, log, touches := [], [], [];
      active, waiting, waitingBytes, clock, order := 0, 0, 0, 0, 0;
      completed, rejected, expired, cancelled := 0, 0, 0, 0;
      new;
      InitOk(b);
    }

    method Forget(key: HistoryKey)
      requires Matches(history, historyLRU)
      modifies this`history, this`historyLRU
      ensures Matches(history, historyLRU) && historyLRU == SchedulerSteps.Forget(old(historyLRU), key)
    {
      ForgetKeeps(historyLRU, key);
      if key in history {
        history := history - {key};
        historyLRU := SchedulerSteps.Forget(historyLRU, key);
      } else {
        ForgetAbsent(historyLRU, key);
      }
    }

    /** Remember a departure in front, and drop the oldest beyond the bound. */
    method Remember(discard: bool, h: History)
      requires Matches(history, historyLRU) && |historyLRU| <= HistoryBound(budget)
      modifies this`history, this`historyLRU, this`touches
      ensures Matches(history, historyLRU) && touches == old(touches) + [Departed(discard, h)]
      ensures historyLRU == SchedulerSteps.Remember(budget, old(historyLRU), discard, h)
      ensures |historyLRU| <= HistoryBound(budget)
    {
      hide Matches, SchedulerSteps.Forget, HistoryBound, Departed;
      touches := touches + [Departed(discard, h)];
      ForgetKeeps(historyLRU, h.key);
      Forget(h.key);
      if discard {
        return;
      }
      MatchesPush(history, historyLRU, h);
      history, historyLRU := history[h.key := h], [h] + historyLRU;
      ghost var all := historyLRU;
      while |historyLRU| > HistoryBound(budget)
        invariant Matches(history, historyLRU) && touches == old(touches) + [Departed(discard, h)]
        invariant |historyLRU| <= |all| && historyLRU == all[..|historyLRU|]
        invariant |all| <= HistoryBound(budget) ==> historyLRU == all
        invariant |all| > HistoryBound(budget) ==> |historyLRU| >= HistoryBound(budget)
        decreases |historyLRU|
      {
        var e := historyLRU[|historyLRU| - 1];
        MatchesPop(history, historyLRU);
        history := history - {e.key};
        historyLRU := historyLRU[..|historyLRU| - 1];
      }
    }

    // ---------- Retiring ----------

    method RetireReader(c: string, r: string, at: int)
      requires Seated(Abs(), c, r) && groups[c].readers[r].queue == []
      requires Consistent() && |historyLRU| <= HistoryBound(budget)
      modifies this
      ensures Abs() == SchedulerSteps.RetireReader(old(Abs()), c, r, at)
      ensures Consistent() && |historyLRU| <= HistoryBound(budget)
    {
      hide Matches, HeapsFit, SchedulerSteps.Remember, HistoryBound, Departed;
      var g := groups[c];
      var rd := g.readers[r];
      RetiredReader(groups, ready, readerReady, c, r);
      groups := groups[c := g.(readers := g.readers - {r})];
      Remember(g.discardHistory, History(HistoryKey(c, r), rd.service, rd.estimate, 0, at));
    }

    method RetireGroup(c: string, at: int)
      requires c in groups && groups[c].waiting == 0
      requires Consistent() && |historyLRU| <= HistoryBound(budget)
      modifies this
      ensures Abs() == SchedulerSteps.RetireGroup(old(Abs()), c, at)
      ensures Consistent() && |historyLRU| <= HistoryBound(budget)
    {
      hide Matches, HeapsFit, SchedulerSteps.Remember, HistoryBound, Departed;
      var g := groups[c];
      RetiredGroup(groups, ready, readerReady, c);
      groups := groups - {c};
      readerReady := readerReady - {c};
      Remember(g.discardHistory, History(HistoryKey(c, ""), g.service, g.estimate, g.clock, at));
    }

    method Tidy(c: string, r: string, env: Env)
      requires Seated(Abs(), c, r)
      requires Consistent() && |historyLRU| <= HistoryBound(budget)
      modifies this
      ensures Abs() == SchedulerSteps.Tidy(old(Abs()), c, r, env)
      ensures Consistent()
    {
      hide HeapsFit, Matches, SchedulerSteps.Remember, HistoryBound;
      if groups[c].readers[r].active == 0 && groups[c].readers[r].queue == [] {
        RetireReader(c, r, env.at(HistoryKey(c, r)));
      }
      if groups[c].active == 0 && groups[c].waiting == 0 {
        RetireGroup(c, env.at(HistoryKey(c, "")));
      }
    }

    // ---------- Leaving a queue ----------

    method CountOutcome(p: Phase)
      modifies this`completed, this`rejected, this`expired, this`cancelled
      ensures completed == old(completed) + (if p.Completed? then 1 else 0)
      ensures rejected == old(rejected) + (if p.Rejected? then 1 else 0)
      ensures expired == old(expired) + (if p.Expired? then 1 else 0)
      ensures cancelled == old(cancelled) + (if p.Cancelled? then 1 else 0)
    {
      match p
      case Completed => completed := completed + 1;
      case Rejected => rejected := rejected + 1;
      case Expired => expired := expired + 1;
      case Cancelled => cancelled := cancelled + 1;
      case Queued =>
      case Running(_, _) =>
    }

    /** Put back a group and reader with less work, out of the heaps if they have none. */
    method Shrink(c: string, r: string, rd: Reader, g: Group)
      requires HeapsFit(groups, ready, readerReady) && c in groups && r in groups[c].readers && groups[c].waiting > 0
      requires groups[c].readers[r].queue != [] && rd == groups[c].readers[r].(queue := rd.queue)
      requires g == groups[c].(waiting := groups[c].waiting - 1, readers := groups[c].readers[r := rd])
      modifies this`groups, this`ready, this`readerReady
      ensures groups == old(groups)[c := g] && HeapsFit(groups, ready, readerReady)
    {
      hide HeapsFit;
      ready, readerReady := ShrunkHeaps(groups, ready, readerReady, c, r, rd, g);
      groups := groups[c := g];
    }

    /** Settle a waiter that leaves its queue without running. */
    method Depart(w: Wid, p: Phase, close: bool)
      requires w in waiters
      modifies this`waiters, this`waiting, this`waitingBytes, this`completed, this`rejected, this`expired, this`cancelled
      ensures waiters == old(waiters)[w := old(waiters)[w].(phase := p, closed := close)]
      ensures waiting == old(waiting) - 1 && waitingBytes == old(waitingBytes) - old(waiters)[w].bytes
      ensures completed == old(completed) + (if p.Completed? then 1 else 0)
      ensures rejected == old(rejected) + (if p.Rejected? then 1 else 0)
      ensures expired == old(expired) + (if p.Expired? then 1 else 0)
      ensures cancelled == old(cancelled) + (if p.Cancelled? then 1 else 0)
    {
      CountOutcome(p);
      waiting, waitingBytes := waiting - 1, waitingBytes - waiters[w].bytes;
      waiters := waiters[w := waiters[w].(phase := p, closed := close)];
    }

    /** Take a queued waiter out of its reader's queue, and out of the heaps whoever has no work left. */
    method Remove(w: Wid, p: Phase, close: bool, env: Env)
      requires Settled(Abs()) && Consistent() && InQueue(Abs(), w) && Leaving(p)
      modifies this
      ensures Abs() == Leave(old(Abs()), w, p, close, env)
      ensures Consistent()
    {
      BoundedHistory(Abs());
      QueuedCounts(Abs(), w);
      var c, r := waiters[w].cid, waiters[w].rid;
      Unlink(w, p, close);
      hide Core, NoIdle, Matches, HeapsFit, Dequeue, SchedulerSteps.Tidy, HistoryBound;
      Tidy(c, r, env);
    }

    method Unlink(w: Wid, p: Phase, close: bool)
      requires Consistent() && InQueue(Abs(), w) && Leaving(p) && groups[waiters[w].cid].waiting > 0
      modifies this
      ensures Abs() == Dequeue(old(Abs()), w, p, close)
      ensures Consistent() && historyLRU == old(historyLRU)
    {
      ghost var s := Abs();
      DequeueIs(s, w, p, close);
      hide Matches, Without, HeapsFit, Dequeue;
      var x := waiters[w];
      var c, r := x.cid, x.rid;
      var g := groups[c];
      var rd := g.readers[r];
      var rd' := rd.(queue := Without(rd.queue, w));
      var g' := g.(waiting := g.waiting - 1, readers := g.readers[r := rd']);
      Shrink(c, r, rd', g');
      Depart(w, p, close);
    }

    // ---------- Handing out workers ----------

    /** The popped waiter runs, or leaves if its context is done or its deadline passed. */
    method Serve(c: string, r: string, env: Env)
      requires CanPop(Abs(), c, r)
      modifies this
      ensures Abs() == SchedulerSteps.Serve(old(Abs()), c, r, env)
      ensures unchanged(this`ready) && unchanged(this`readerReady) && unchanged(this`history)
    {
      var w := groups[c].readers[r].queue[0];
      match env.fate(w) {
        case Go =>
          Start(c, r);
        case ContextDone =>
          GiveUpTurn(c, r, w, Cancelled);
        case PastDeadline =>
          GiveUpTurn(c, r, w, Expired);
      }
    }

    /** Charge the estimates, advance both clocks and occupy a worker. */
    method Start(c: string, r: string)
      requires CanPop(Abs(), c, r)
      modifies this
      ensures Abs() == SchedulerSteps.Start(old(Abs()), c, r)
      ensures unchanged(this`ready) && unchanged(this`readerReady) && unchanged(this`history)
    {
      var g := groups[c];
      var rd := g.readers[r];
      var w := rd.queue[0];
      var x := waiters[w];
      var rd' := rd.(queue := rd.queue[1..], service := rd.service + rd.estimate, active := rd.active + 1);
      clock := Max(clock, g.service);
      groups := groups[c := g.(waiting := g.waiting - 1, clock := Max(g.clock, rd.service),
                               service := g.service + g.estimate, active := g.active + 1,
                               readers := g.readers[r := rd'])];
      waiters := waiters[w := x.(phase := Running(g.estimate, rd.estimate), closed := true)];
      active := active + 1;
      waiting, waitingBytes := waiting - 1, waitingBytes - x.bytes;
      log := log + [c];
    }

    method GiveUpTurn(c: string, r: string, w: Wid, p: Phase)
      requires CanPop(Abs(), c, r) && w == groups[c].readers[r].queue[0] && (p.Cancelled? || p.Expired?)
      modifies this`groups, this`waiters, this`waiting, this`waitingBytes
      modifies this`completed, this`rejected, this`expired, this`cancelled
      ensures Abs() == Dequeue(old(Abs()), w, p, true)
    {
      DequeueIs(Abs(), w, p, true);
      hide Dequeue, Without;
      var g := groups[c];
      var rd := g.readers[r];
      groups := groups[c := g.(waiting := g.waiting - 1, readers := g.readers[r := rd.(queue := Without(rd.queue, w))])];
      Depart(w, p, true);
    }

    /** A reader, and then a group, with work left takes a new turn. */
    method NextTurn(c: string, r: string)
      requires Seated(Abs(), c, r)
      modifies this`groups, this`order
      ensures Abs() == SchedulerSteps.NextTurn(old(Abs()), c, r)
    {
      var g := groups[c];
      if g.readers[r].queue != [] {
        order := order + 1;
        groups := groups[c := g.(readers := g.readers[r := g.readers[r].(order := order)])];
      }
      if g.waiting > 0 {
        order := order + 1;
        groups := groups[c := groups[c].(order := order)];
      }
    }

    /** One turn, for a group and reader just popped off their heaps. */
    method TurnOf(c: string, r: string, heap: ReadyHeap, readers: ReadyHeap, env: Env)
      requires CanPop(Abs(), c, r) && Matches(history, historyLRU) && |historyLRU| <= HistoryBound(budget)
      requires FitBut(groups, readerReady, c)
      requires Heap.HeapOk(heap, ReadyGroups(groups) - {c}) && Heap.HeapOk(readers, ReadyReaders(groups[c]) - {r})
      modifies this
      ensures Abs() == SchedulerSteps.Pop(old(Abs()), c, r, env)
      ensures Consistent()
    {
      hide Heap.HeapOk, FitBut, HeapsFit, Matches, HistoryBound;
      ServedGroups(Abs(), c, r, env);
      ghost var was := groups;
      Serve(c, r, env);
      NextTurn(c, r);
      hide SchedulerSteps.Serve, SchedulerSteps.NextTurn, SchedulerSteps.Tidy, CanPop;
      ready, readerReady := RejoinHeaps(was, groups, heap, readers, readerReady, c, r);
      Tidy(c, r, env);
    }

    method Turn(env: Env)
      requires Settled(Abs()) && Consistent() && CanDispatch(Abs())
      modifies this
      ensures Abs() == DispatchOne(old(Abs()), env)
      ensures Consistent()
    {
      ghost var s := Abs();
      DispatchReady(s);
      BoundedHistory(s);
      HeapsFitBut(groups, ready, readerReady);
      hide Core, NoIdle, HeapsFit, Heap.HeapOk, Matches, HistoryBound, FitBut, DistinctTurns, IsLeast, SchedulerSteps.Pop;
      var c, r, heap, readers := PopHeaps(groups, ready, readerReady);
      LeastUnique(ReadyGroups(groups), c, NextGroup(s));
      LeastUnique(ReadyReaders(groups[c]), r, NextReader(s, c));
      TurnOf(c, r, heap, readers, env);
    }

    /** While a worker is free and a group is ready, hand the worker out. */
    method DispatchFree(env: Env)
      requires Settled(Abs()) && Consistent()
      modifies this
      ensures Abs() == Dispatch(old(Abs()), env)
      ensures Valid()
    {
      hide Core, NoIdle, Matches, DispatchOne;
      ghost var s := Abs();
      HeapEmpty(groups, ready, readerReady);
      while active < budget.workers && ready.slots != []
        invariant Settled(Abs()) && Consistent() && Dispatch(Abs(), env) == Dispatch(s, env)
        invariant ready.slots == [] <==> ReadyGroups(groups) == map[]
        decreases waiting
      {
        ReadyMeansWaiting(Abs());
        Turn(env);
        HeapEmpty(groups, ready, readerReady);
      }
      assert !CanDispatch(Abs());
    }

    // ---------- Finishing ----------

    /** Return the worker of a request that still holds one, and hand it on. */
    method Finish(w: Wid, elapsed: int, env: Env)
      requires Valid() && w in waiters
      modifies this
      ensures Abs() == Release(old(Abs()), w, elapsed, env)
      ensures Valid()
    {
      if !waiters[w].phase.Running? {
        return;
      }
      FinishKeeps(Abs(), w, elapsed, env);
      BoundedHistory(Abs());
      hide Core, NoIdle, HeapsFit, Matches, HistoryBound, SchedulerSteps.Tidy;
      var c, r := waiters[w].cid, waiters[w].rid;
      Complete(w, elapsed);
      Tidy(c, r, env);
      DispatchFree(env);
    }

    /** Correct both services to the observed time, and fix both heaps. */
    method Complete(w: Wid, elapsed: int)
      requires IsRunning(Abs(), w) && Consistent()
      modifies this
      ensures Abs() == SchedulerSteps.Complete(old(Abs()), w, elapsed)
      ensures Consistent() && historyLRU == old(historyLRU)
    {
      hide HeapsFit, Matches;
      var x := waiters[w];
      var c, r := x.cid, x.rid;
      var g := groups[c];
      var rd := g.readers[r];
      var duration := Max(MILLISECOND, elapsed);
      var rd' := rd.(service := Settle(rd.service, duration, x.phase.readerCharged, g.clock),
                     estimate := (rd.estimate * 3 + duration) / 4, active := rd.active - 1);
      var g' := g.(service := Settle(g.service, duration, x.phase.charged, clock),
                   estimate := (g.estimate * 3 + duration) / 4, active := g.active - 1, readers := g.readers[r := rd']);
      var heap, readerHeaps := FixedHeaps(groups, ready, readerReady, c, r, rd', g');
      ready, readerReady := heap, readerHeaps;
      groups, waiters := groups[c := g'], waiters[w := x.(phase := Completed)];
      active, completed := active - 1, completed + 1;
    }

    // ---------- Admission ----------

    /** Remembered debt, looked up in the map. */
    method Lookup(key: HistoryKey, now: int) returns (debt: Option<History>)
      requires Matches(history, historyLRU)
      ensures debt == Remembered(historyLRU, key, now)
    {
      RecallMatches(history, historyLRU, key);
      debt := None;
      if key in history && now - history[key].at < HISTORY_KEPT {
        debt := Some(history[key]);
      }
    }

    /** Push the newest waiter out of the longest queue, until there is room or nobody to ask. */
    method MakeRoom(c: string, r: string, bytes: nat, env: Env) returns (room: bool, ghost victims: seq<Wid>)
      requires Settled(Abs()) && Consistent()
      modifies this
      ensures Settled(Abs()) && Consistent()
      ensures EvictionRun(old(Abs()), c, r, bytes, victims, env)
      ensures Abs() == AfterEvictions(old(Abs()), c, r, bytes, victims, env) && room == !Full(Abs(), bytes)
    {
      hide Core, NoIdle, HeapsFit, Matches, IsVictim, NoDonor, SchedulerSteps.Withdraw;
      ghost var s := Abs();
      victims := [];
      while waiting >= budget.queue || waitingBytes + bytes > budget.queueBytes
        invariant Settled(Abs()) && Consistent() && budget == s.budget
        invariant Evicting(s, c, r, bytes, victims, env, Abs())
        decreases waiting
      {
        var w := ChooseVictim(c, r);
        if w.None? {
          EvictingEnds(s, c, r, bytes, victims, env, Abs());
          return false, victims;
        }
        VictimQueued(Abs(), c, r, w.value);
        EvictingMore(s, c, r, bytes, victims, env, Abs(), w.value);
        victims := victims + [w.value];
        Remove(w.value, Rejected, true, env);
      }
      EvictingEnds(s, c, r, bytes, victims, env, Abs());
      room := true;
    }

    /** A strictly longer community gives way first, then a strictly longer reader of this one. */
    method ChooseVictim(c: string, r: string) returns (w: Option<Wid>)
      requires Core(Abs())
      ensures w.Some? ==> IsVictim(Abs(), c, r, w.value)
      ensures w.None? ==> NoDonor(Abs(), c, r)
    {
      hide Core, HeapsFit, Matches;
      ghost var s := Abs();
      var own := if c in groups then groups[c].waiting else 0;
      var largest := LargestGroup(groups, own);
      var dc := c;
      var donor := None;
      if largest.Some? {
        dc := largest.value;
        WaitingNotNegative(s, c);
        WaitingGroupHasLongReader(s, dc);
        donor := LongestReader(groups[dc], -1);
      } else if c in groups {
        var length := if r in groups[c].readers then |groups[c].readers[r].queue| else 0;
        donor := LongestReader(groups[c], length + 1);
      }
      if donor.None? { return None; }
      var queue := groups[dc].readers[donor.value].queue;
      QueuedHere(s, dc, donor.value, queue[|queue| - 1]);
      w := Some(queue[|queue| - 1]);
    }

    /** Seat the newcomer and open its reader and its group if they had no work. */
    method Enqueue(c: string, r: string, w: Wid, bytes: nat, g0: Group, rd0: Reader)
      requires Consistent() && CanSeat(groups, c, r, g0, rd0)
      modifies this
      ensures Abs() == SchedulerSteps.Enqueue(old(Abs()), c, r, w, bytes, g0, rd0)
      ensures Consistent()
    {
      ghost var s := Abs();
      hide HeapsFit, Matches, SchedulerSteps.Forget, SchedulerSteps.Enqueue, GrownGroup, GrownOrder, Reseated, Reclaimed, CanSeat, Joinable, BaseOf, SeatOf;
      var g := BaseOf(groups, c, g0);
      var rd := SeatOf(g, r, rd0);
      CanJoin(groups, c, r, g0, rd0);
      EnqueueIs(s, c, r, w, bytes, g0, rd0);
      Sit(c, r, w, bytes, g, rd);
    }

    method Sit(c: string, r: string, w: Wid, bytes: nat, g: Group, rd: Reader)
      requires HeapsFit(groups, ready, readerReady) && Matches(history, historyLRU) && Joinable(groups, c, r, g, rd)
      modifies this`history, this`historyLRU, this`touches, this`groups, this`ready, this`readerReady, this`order,
               this`waiters, this`waiting, this`waitingBytes
      ensures HeapsFit(groups, ready, readerReady) && Matches(history, historyLRU)
      ensures groups == old(groups)[c := GrownGroup(g, r, rd, w, old(order))] && order == GrownOrder(g, rd, old(order))
      ensures historyLRU == Reclaimed(old(historyLRU), c, r, c !in old(groups), r !in g.readers)
      ensures touches == Reseated(old(touches), c, r, c !in old(groups), r !in g.readers)
      ensures waiters == old(waiters)[w := Waiter(c, r, bytes, Queued, false)]
      ensures waiting == old(waiting) + 1 && waitingBytes == old(waitingBytes) + bytes
    {
      hide HeapsFit, Matches, GrownGroup, GrownOrder, Reseated, Reclaimed, Joinable;
      ForgetSeat(c, r, c !in groups, r !in g.readers);
      Join(c, r, w, g, rd);
      Queue(w, Waiter(c, r, bytes, Queued, false));
    }

    method Queue(w: Wid, x: Waiter)
      modifies this`waiters, this`waiting, this`waitingBytes
      ensures waiters == old(waiters)[w := x] && waiting == old(waiting) + 1 && waitingBytes == old(waitingBytes) + x.bytes
    {
      waiters := waiters[w := x];
      waiting, waitingBytes := waiting + 1, waitingBytes + x.bytes;
    }

    method ForgetSeat(c: string, r: string, newGroup: bool, newReader: bool)
      requires Matches(history, historyLRU)
      modifies this`history, this`historyLRU, this`touches
      ensures Matches(history, historyLRU) && touches == Reseated(old(touches), c, r, newGroup, newReader)
      ensures historyLRU == Reclaimed(old(historyLRU), c, r, newGroup, newReader)
    {
      hide Matches, SchedulerSteps.Forget;
      if newGroup { Forget(HistoryKey(c, "")); }
      if newReader { Forget(HistoryKey(c, r)); }
      touches := Reseated(touches, c, r, newGroup, newReader);
    }

    /** Put the newcomer at the end of its queue, and push whoever had no work onto its heap. */
    method Join(c: string, r: string, w: Wid, g: Group, rd: Reader)
      requires HeapsFit(groups, ready, readerReady) && Joinable(groups, c, r, g, rd)
      modifies this`groups, this`ready, this`readerReady, this`order
      ensures groups == old(groups)[c := GrownGroup(g, r, rd, w, old(order))] && order == GrownOrder(g, rd, old(order))
      ensures HeapsFit(groups, ready, readerReady)
    {
      hide HeapsFit;
      ghost var first := order;
      var rd' := rd.(queue := rd.queue + [w]);
      if rd.queue == [] {
        order := order + 1;
        rd' := rd'.(order := order);
      }
      var g' := g.(waiting := g.waiting + 1, readers := g.readers[r := rd']);
      if g.waiting <= 0 {
        order := order + 1;
        g' := g'.(order := order);
      }
      assert g' == GrownGroup(g, r, rd, w, first);
      ready, readerReady := GrownHeaps(groups, ready, readerReady, c, r, g, g');
      groups := groups[c := g'];
    }

    /** The newcomer's group and reader, live or rebuilt from remembered debt. */
    method RestoreSeat(c: string, r: string, now: int) returns (g: Group, rd: Reader)
      requires Matches(history, historyLRU)
      ensures g == if c in groups then groups[c] else RestoreGroup(Abs(), c, now)
      ensures rd == if c in groups && r in groups[c].readers then groups[c].readers[r]
                    else RestoreReader(Abs(), c, r, g.clock, now)
    {
      hide Matches;
      if c in groups {
        g := groups[c];
      } else {
        var debt := Lookup(HistoryKey(c, ""), now);
        g := GroupFrom(debt, clock);
      }
      if c in groups && r in groups[c].readers {
        rd := groups[c].readers[r];
      } else {
        var debt := Lookup(HistoryKey(c, r), now);
        rd := ReaderFrom(debt, g.clock);
      }
    }

    /** Ask for a worker: make room if others can give it, then queue, or refuse. */
    method Acquire(c: string, r: string, payload: int, contextDone: bool, w: Wid, now: int, env: Env)
      returns (outcome: Admission, ghost victims: seq<Wid>)
      requires Valid() && w !in waiters
      modifies this
      ensures Valid()
      ensures outcome.NoIdentity? <==> c == "" || r == ""
      ensures outcome.Abandoned? <==> !outcome.NoIdentity? && contextDone
      ensures outcome.TooLarge? <==> !outcome.NoIdentity? && !contextDone && RequestBytes(payload) > budget.queueBytes
      ensures !outcome.Admitted? && !outcome.QueueFull? ==> Abs() == old(Abs())
      ensures outcome.Admitted? || outcome.QueueFull? ==>
                EvictionRun(old(Abs()), c, r, RequestBytes(payload), victims, env)
                && Abs() == Admit(old(Abs()), c, r, w, RequestBytes(payload), now, victims, env)
                && (outcome.QueueFull? <==>
                    Full(AfterEvictions(old(Abs()), c, r, RequestBytes(payload), victims, env), RequestBytes(payload)))
    {
      hide Inv, HeapsFit, Matches, Admit, EvictionRun, AfterEvictions, Full;
      victims := [];
      if c == "" || r == "" { return NoIdentity, []; }
      if contextDone { return Abandoned, []; }
      var bytes := RequestBytes(payload);
      if bytes > budget.queueBytes { return TooLarge, []; }
      var admitted;
      admitted, victims := AdmitSized(c, r, w, bytes, now, env);
      outcome := if admitted then Admitted else QueueFull;
    }

    method AdmitSized(c: string, r: string, w: Wid, bytes: nat, now: int, env: Env)
      returns (admitted: bool, ghost victims: seq<Wid>)
      requires Valid() && c != "" && r != "" && w !in waiters
      modifies this
      ensures Valid() && EvictionRun(old(Abs()), c, r, bytes, victims, env)
      ensures Abs() == Admit(old(Abs()), c, r, w, bytes, now, victims, env)
      ensures admitted == !Full(AfterEvictions(old(Abs()), c, r, bytes, victims, env), bytes)
    {
      hide Core, NoIdle, HeapsFit, Matches;
      ghost var s := Abs();
      var g0, rd0 := RestoreSeat(c, r, now);
      admitted, victims := MakeRoom(c, r, bytes, env);
      hide EvictionRun, AfterEvictions;
      EnqueueReady(s, Abs(), c, r, w, bytes, now, victims, env);
      hide Full, RestoreGroup, RestoreReader, SchedulerSteps.Enqueue, Saturated;
      if admitted {
        Enqueue(c, r, w, bytes, g0, rd0);
        DispatchFree(env);
      } else {
        waiters := waiters[w := Waiter(c, r, bytes, Rejected, false)];
        rejected := rejected + 1;
      }
    }

    /** A waiter woken by its context or its timer gives up its place if it still has one. */
    method WakeUp(w: Wid, contextDone: bool, env: Env)
      requires Valid() && w in waiters
      modifies this
      ensures Valid() && Abs() == GiveUp(old(Abs()), w, contextDone, env)
    {
      hide NoIdle, HeapsFit, Matches;
      if waiters[w].phase.Queued? {
        ghost var s' := GiveUp(Abs(), w, contextDone, env);
        QueuedPlaced(Abs(), w);
        Remove(w, if contextDone then Cancelled else Expired, false, env);
      }
    }

    /** What a woken request comes away with: its release if it holds a worker by now, unless its
        context is done, when the worker goes back at once. */
    method Conclude(w: Wid, contextDone: bool, elapsed: int, env: Env) returns (handed: bool)
      requires Valid() && w in waiters
      modifies this
      ensures Valid() && handed == (old(waiters[w].phase.Running?) && !contextDone)
      ensures Abs() == if contextDone then Release(old(Abs()), w, elapsed, env) else old(Abs())
    {
      hide Core, NoIdle, HeapsFit, Matches, Dispatch;
      handed := waiters[w].phase.Running? && !contextDone;
      if contextDone { Finish(w, elapsed, env); }
    }

    // ---------- Dropping a community ----------

    /** Cancel everything the community has queued, and remember nothing of it. */
    method DropCommunity(c: string, env: Env) returns (ghost order: seq<Wid>)
      requires Valid()
      modifies this
      ensures Valid() && Settled(Discard(old(Abs()), c)) && DropRun(Discard(old(Abs()), c), c, order, env)
      ensures Abs() == Drop(old(Abs()), c, order, env)
    {
      hide Core, NoIdle, HeapsFit, Matches, DropRun, AfterDrops;
      DiscardKeeps(Abs(), c);
      ghost var s := Discard(Abs(), c);
      order := [];
      if c in groups {
        SameHeaps(groups, ready, readerReady, c, groups[c].(discardHistory := true));
        groups := groups[c := groups[c].(discardHistory := true)];
        order := DropReaders(c, env);
      } else {
        DroppingEnds(s, c, [], env, s);
      }
      ForgottenKeeps(Abs(), c);
      ForgetAll(c);
      touches := touches + [GoneAll(c)];
      hide Dispatch, ForgetCommunity;
      DispatchFree(env);
    }

    method DropReaders(c: string, env: Env) returns (ghost order: seq<Wid>)
      requires Settled(Abs()) && Consistent() && c in groups
      modifies this
      ensures Settled(Abs()) && Consistent()
      ensures DropRun(old(Abs()), c, order, env) && Abs() == AfterDrops(old(Abs()), c, order, env)
    {
      hide Core, NoIdle, HeapsFit, Matches, DropRun, AfterDrops, Dropping;
      ghost var s := Abs();
      order := [];
      DroppingNothing(s, c, env);
      var rest := groups[c].readers.Keys;
      while rest != {}
        invariant Settled(Abs()) && Consistent() && Dropping(s, c, order, env, Abs())
        invariant QueuesWithin(Abs(), c, rest)
        decreases rest
      {
        var r :| r in rest;
        order := DropReader(c, r, env, s, order, rest);
        rest := rest - {r};
      }
      QueuesEmpty(Abs(), c);
      DroppingEnds(s, c, order, env, Abs());
    }

    method DropReader(c: string, r: string, env: Env, ghost s: State, ghost before: seq<Wid>, ghost rest: set<string>)
      returns (ghost order: seq<Wid>)
      requires Settled(s) && Settled(Abs()) && Consistent() && Dropping(s, c, before, env, Abs())
      requires QueuesWithin(Abs(), c, rest)
      modifies this
      ensures Settled(Abs()) && Consistent() && Dropping(s, c, order, env, Abs()) && QueuesWithin(Abs(), c, rest - {r})
    {
      hide Core, NoIdle, HeapsFit, Matches, Dropping, SchedulerSteps.Withdraw, QueuesWithin;
      order := before;
      while c in groups && r in groups[c].readers && groups[c].readers[r].queue != []
        invariant Settled(Abs()) && Consistent() && Dropping(s, c, order, env, Abs()) && QueuesWithin(Abs(), c, rest)
        decreases waiting
      {
        var w := groups[c].readers[r].queue[0];
        QueuedHere(Abs(), c, r, w);
        DroppingMore(s, c, order, env, Abs(), w);
        LeaveShrinks(Abs(), w, env, c, rest);
        VictimCounts(Abs(), w);
        order := order + [w];
        Remove(w, Cancelled, true, env);
      }
      QueuesBut(Abs(), c, rest, r);
    }

    /** Forget every key of the community, in whatever order the map is scanned. */
    method ForgetAll(c: string)
      requires Matches(history, historyLRU)
      modifies this`history, this`historyLRU
      ensures Matches(history, historyLRU) && historyLRU == ForgetCommunity(old(historyLRU), c)
    {
      hide ForgetCommunity;
      var rest := history.Keys;
      while rest != {}
        invariant Matches(history, historyLRU) && ForgetCommunity(historyLRU, c) == ForgetCommunity(old(historyLRU), c)
        invariant forall k :: k in history && k.community == c ==> k in rest
        decreases rest
      {
        var key :| key in rest;
        if key.community == c {
          ForgetWithin(historyLRU, key);
          ForgetKeeps(historyLRU, key);
          Forget(key);
        }
        rest := rest - {key};
      }
      ForgottenAlready(historyLRU, c);
    }
  }

  // ---------- Lemmas the methods rest on ----------

  /** Only readers among `rest` have queued work in the community. */
  ghost predicate QueuesWithin(s: State, c: string, rest: set<string>) {
    forall r :: Seated(s, c, r) && s.groups[c].readers[r].queue != [] ==> r in rest
  }

  lemma QueuesBut(s: State, c: string, rest: set<string>, r: string)
    requires QueuesWithin(s, c, rest) && !(Seated(s, c, r) && s.groups[c].readers[r].queue != [])
    ensures QueuesWithin(s, c, rest - {r})
  {
  }

  lemma QueuesEmpty(s: State, c: string)
    requires Core(s) && QueuesWithin(s, c, {})
    ensures GroupWaitingNow(s, c) == 0
  {
    WaitingNotNegative(s, c);
    hide Core;
    if GroupWaitingNow(s, c) > 0 {
      WaitingGroupHasLongReader(s, c);
    }
  }

  lemma LeaveShrinks(s: State, w: Wid, env: Env, c: string, rest: set<string>)
    requires Settled(s) && InQueue(s, w) && QueuesWithin(s, c, rest)
    ensures QueuesWithin(Leave(s, w, Cancelled, true, env), c, rest)
  {
    hide Core, NoIdle, SchedulerSteps.Remember;
  }

  lemma VictimCounts(s: State, w: Wid)
    requires Core(s) && InQueue(s, w)
    ensures s.waiting > 0
  {
    hide Tally, HistoryOk, OrdersOk, GroupsOk;
    TallyAtLeast(s.waiters, WaitingCount);
  }

  lemma DroppingNothing(s: State, c: string, env: Env)
    requires Settled(s)
    ensures Dropping(s, c, [], env, s)
  {
    hide Core, NoIdle;
  }

  lemma SameHeaps(groups: map<string, Group>, ready: ReadyHeap, readerReady: map<string, ReadyHeap>, c: string, g: Group)
    requires HeapsFit(groups, ready, readerReady) && c in groups
    requires g.readers == groups[c].readers && g.waiting == groups[c].waiting && GroupKey(g) == GroupKey(groups[c])
    ensures HeapsFit(groups[c := g], ready, readerReady)
  {
    hide Heap.HeapOk;
    assert ReadyGroups(groups[c := g]) == ReadyGroups(groups);
    assert ReadyReaders(g) == ReadyReaders(groups[c]);
  }

  lemma {:induction false} ForgetWithin(lru: seq<History>, key: HistoryKey)
    ensures ForgetCommunity(SchedulerSteps.Forget(lru, key), key.community) == ForgetCommunity(lru, key.community)
  {
    if lru != [] { ForgetWithin(lru[1..], key); }
  }

  lemma {:induction false} ForgottenAlready(lru: seq<History>, c: string)
    requires forall h :: h in lru ==> h.key.community != c
    ensures ForgetCommunity(lru, c) == lru
  {
    if lru != [] {
      assert lru[0] in lru;
      ForgottenAlready(lru[1..], c);
    }
  }

  lemma QueuedPlaced(s: State, w: Wid)
    requires Core(s) && w in s.waiters && s.waiters[w].phase.Queued?
    ensures InQueue(s, w)
  {
    hide Tally, OrdersOk, HistoryOk;
  }

  lemma {:induction false} RecallMatches(history: map<HistoryKey, History>, lru: seq<History>, key: HistoryKey)
    requires Matches(history, lru)
    ensures Recall(lru, key) == if key in history then Some(history[key]) else None
  {
    RecallFinds(lru, key);
    if key in history { RecallPresent(lru, history[key]); }
  }

  lemma {:induction false} RecallPresent(lru: seq<History>, h: History)
    requires h in lru
    ensures Recall(lru, h.key).Some?
  {
    if lru[0].key != h.key { RecallPresent(lru[1..], h); }
  }

  datatype Admission = NoIdentity | Abandoned | TooLarge | QueueFull | Admitted

  lemma DequeueIs(s: State, w: Wid, p: Phase, close: bool)
    requires InQueue(s, w) && Leaving(p)
    ensures var x := s.waiters[w];
            var g := s.groups[x.cid];
            var rd := g.readers[x.rid];
            var g' := g.(waiting := g.waiting - 1, readers := g.readers[x.rid := rd.(queue := Without(rd.queue, w))]);
            Dequeue(s, w, p, close)
            == State(s.budget, s.groups[x.cid := g'], s.waiters[w := x.(phase := p, closed := close)], s.lru,
                     s.active, s.waiting - 1, s.bytes - x.bytes, s.clock, s.order, s.completed,
                     s.rejected + (if p.Rejected? then 1 else 0), s.expired + (if p.Expired? then 1 else 0),
                     s.cancelled + (if p.Cancelled? then 1 else 0), s.log, s.touches)
  {
  }

  function GrownReader(rd: Reader, w: Wid, order: int): Reader {
    rd.(queue := rd.queue + [w], order := if rd.queue == [] then order + 1 else rd.order)
  }

  function GrownGroup(g: Group, r: string, rd: Reader, w: Wid, order: int): Group {
    g.(waiting := g.waiting + 1, order := if g.waiting <= 0 then GrownOrder(g, rd, order) else g.order,
       readers := g.readers[r := GrownReader(rd, w, order)])
  }

  function GrownOrder(g: Group, rd: Reader, order: int): int {
    order + (if rd.queue == [] then 1 else 0) + (if g.waiting <= 0 then 1 else 0)
  }

  function Reseated(touches: seq<Touch>, c: string, r: string, newGroup: bool, newReader: bool): seq<Touch> {
    var with := if newGroup then touches + [Gone(HistoryKey(c, ""))] else touches;
    if newReader then with + [Gone(HistoryKey(c, r))] else with
  }

  /** What a newcomer's group and reader come back with is no longer remembered. */
  function Reclaimed(lru: seq<History>, c: string, r: string, newGroup: bool, newReader: bool): seq<History> {
    var with := if newGroup then SchedulerSteps.Forget(lru, HistoryKey(c, "")) else lru;
    if newReader then SchedulerSteps.Forget(with, HistoryKey(c, r)) else with
  }

  function BaseOf(groups: map<string, Group>, c: string, g0: Group): Group { if c in groups then groups[c] else g0 }

  function SeatOf(g: Group, r: string, rd0: Reader): Reader { if r in g.readers then g.readers[r] else rd0 }

  /** A group or reader that is not there yet starts empty. */
  ghost predicate CanSeat(groups: map<string, Group>, c: string, r: string, g0: Group, rd0: Reader) {
    (if c in groups then groups[c].waiting >= 0 else g0.readers == map[] && g0.waiting == 0)
    && ((c in groups && r in groups[c].readers) || rd0.queue == [])
  }

  ghost predicate Joinable(groups: map<string, Group>, c: string, r: string, g: Group, rd: Reader) {
    BaseGroup(groups, c, g) && g.waiting >= 0 && if r in g.readers then rd == g.readers[r] else rd.queue == []
  }

  lemma CanJoin(groups: map<string, Group>, c: string, r: string, g0: Group, rd0: Reader)
    requires CanSeat(groups, c, r, g0, rd0)
    ensures Joinable(groups, c, r, BaseOf(groups, c, g0), SeatOf(BaseOf(groups, c, g0), r, rd0))
  {
  }

  lemma EnqueueIs(s: State, c: string, r: string, w: Wid, bytes: nat, g0: Group, rd0: Reader)
    ensures var g := BaseOf(s.groups, c, g0);
            var rd := SeatOf(g, r, rd0);
            SchedulerSteps.Enqueue(s, c, r, w, bytes, g0, rd0)
            == State(s.budget, s.groups[c := GrownGroup(g, r, rd, w, s.order)],
                  s.waiters[w := Waiter(c, r, bytes, Queued, false)], Reclaimed(s.lru, c, r, c !in s.groups, r !in g.readers),
                  s.active, s.waiting + 1, s.bytes + bytes, s.clock, GrownOrder(g, rd, s.order), s.completed, s.rejected, s.expired,
                  s.cancelled, s.log, Reseated(s.touches, c, r, c !in s.groups, r !in g.readers))
  {
    hide SchedulerSteps.Forget;
  }

  /** After the evictions the newcomer's seat is still what it was restored to. */
  lemma EnqueueReady(s: State, s1: State, c: string, r: string, w: Wid, bytes: nat, now: int, victims: seq<Wid>, env: Env)
    requires Inv(s) && c != "" && r != "" && w !in s.waiters && EvictionRun(s, c, r, bytes, victims, env)
    requires s1 == AfterEvictions(s, c, r, bytes, victims, env)
    ensures var g0 := if c in s.groups then s.groups[c] else RestoreGroup(s, c, now);
            var rd0 := if Seated(s, c, r) then s.groups[c].readers[r] else RestoreReader(s, c, r, g0.clock, now);
            (c !in s1.groups ==> g0.readers == map[] && g0.waiting == 0) && (!Seated(s1, c, r) ==> rd0.queue == [])
            && (c in s1.groups ==> s1.groups[c].waiting >= 0)
            && (if Full(s1, bytes) then Inv(Refuse(s1, c, r, w, bytes))
                                        && Admit(s, c, r, w, bytes, now, victims, env) == Refuse(s1, c, r, w, bytes)
                else Settled(SchedulerSteps.Enqueue(s1, c, r, w, bytes, g0, rd0))
                     && Admit(s, c, r, w, bytes, now, victims, env)
                        == Dispatch(SchedulerSteps.Enqueue(s1, c, r, w, bytes, g0, rd0), env))
  {
    hide Core, NoIdle, SchedulerSteps.Enqueue, Refuse, Dispatch;
    AdmitReady(s, c, r, w, bytes, now, victims, env);
    EvictionsSpare(s, c, r, bytes, victims, env);
    WaitingNotNegative(s1, c);
  }

  lemma BoundedHistory(s: State)
    requires Core(s)
    ensures |s.lru| <= HistoryBound(s.budget)
  {
  }

  lemma RetiredReader(groups: map<string, Group>, ready: ReadyHeap, readerReady: map<string, ReadyHeap>, c: string, r: string)
    requires HeapsFit(groups, ready, readerReady) && c in groups && r in groups[c].readers && groups[c].readers[r].queue == []
    ensures HeapsFit(groups[c := groups[c].(readers := groups[c].readers - {r})], ready, readerReady)
  {
    hide Heap.HeapOk;
    assert ReadyReaders(groups[c].(readers := groups[c].readers - {r})) == ReadyReaders(groups[c]);
    assert ReadyGroups(groups[c := groups[c].(readers := groups[c].readers - {r})]) == ReadyGroups(groups);
  }

  lemma RetiredGroup(groups: map<string, Group>, ready: ReadyHeap, readerReady: map<string, ReadyHeap>, c: string)
    requires HeapsFit(groups, ready, readerReady) && c in groups && groups[c].waiting == 0
    ensures HeapsFit(groups - {c}, ready, readerReady - {c})
  {
    hide Heap.HeapOk;
    assert ReadyGroups(groups - {c}) == ReadyGroups(groups);
  }

  lemma ServedGroups(s: State, c: string, r: string, env: Env)
    requires CanPop(s, c, r)
    ensures var s1 := SchedulerSteps.Serve(s, c, r, env);
            Seated(s1, c, r)
            && var s' := SchedulerSteps.NextTurn(s1, c, r);
               Seated(s', c, r) && s'.groups == s.groups[c := s'.groups[c]] && s'.lru == s.lru && s'.budget == s.budget
               && s'.groups[c].readers == s.groups[c].readers[r := s'.groups[c].readers[r]]
  {
    hide Without;
  }

  lemma DispatchReady(s: State)
    requires Core(s)
    ensures DistinctTurns(ReadyGroups(s.groups))
    ensures forall d :: d in ReadyGroups(s.groups) ==>
              ReadyReaders(s.groups[d]) != map[] && DistinctTurns(ReadyReaders(s.groups[d]))
  {
    assert OrdersOk(s);
    hide Core, DistinctTurns;
    forall d | d in ReadyGroups(s.groups)
      ensures ReadyReaders(s.groups[d]) != map[]
    {
      ReadyGroupHasReader(s, d);
    }
  }

  lemma {:induction false} ForgetAbsent(lru: seq<History>, key: HistoryKey)
    requires forall h :: h in lru ==> h.key != key
    ensures SchedulerSteps.Forget(lru, key) == lru
  {
    if lru != [] {
      assert lru[0] in lru;
      ForgetAbsent(lru[1..], key);
    }
  }

  lemma MatchesPush(history: map<HistoryKey, History>, lru: seq<History>, h: History)
    requires Matches(history, lru) && forall x :: x in lru ==> x.key != h.key
    ensures Matches(history[h.key := h], [h] + lru)
  {
    var all := [h] + lru;
    assert all[0] == h && forall i :: 0 < i < |all| ==> all[i] == lru[i - 1];
    assert forall x :: x in all ==> x == h || x in lru;
    var after := history[h.key := h];
    forall k | k in after ensures after[k] in all {
      if k == h.key { assert all[0] in all; }
    }
  }

  lemma MatchesPop(history: map<HistoryKey, History>, lru: seq<History>)
    requires Matches(history, lru) && lru != []
    ensures Matches(history - {lru[|lru| - 1].key}, lru[..|lru| - 1])
  {
    var last := lru[|lru| - 1];
    var rest := lru[..|lru| - 1];
    assert forall i :: 0 <= i < |rest| ==> rest[i] == lru[i];
    forall k | k in history && k != last.key ensures history[k] in rest {
      var i :| 0 <= i < |lru| && lru[i] == history[k];
      assert rest[i] == lru[i];
    }
  }
}

/** The scheduler's critical sections, each one event, and what holds at every release of the lock.

  The source's choices are arguments of the event: which waiters an admission evicts
  (a map is scanned in no fixed order), and in which order a drop empties its readers.
 */
module SchedulerEvents {
  import opened SchedulerState
  import opened SchedulerSteps
  import opened SchedulerInvariant

  // ---------- Leaving a queue ----------

  ghost function Leave(s: State, w: Wid, p: Phase, close: bool, env: Env): (s': State)
    requires Settled(s) && InQueue(s, w) && Leaving(p)
    ensures Settled(s') && s'.waiting == s.waiting - 1 && s'.active == s.active && s'.budget == s.budget
  {
    LeaveKeeps(s, w, p, close, env);
    Withdraw(s, w, p, close, env)
  }

  lemma LeaveKeeps(s: State, w: Wid, p: Phase, close: bool, env: Env)
    requires Settled(s) && InQueue(s, w) && Leaving(p)
    ensures Settled(Withdraw(s, w, p, close, env))
    ensures var s' := Withdraw(s, w, p, close, env);
            s'.waiting == s.waiting - 1 && s'.active == s.active && s'.budget == s.budget
  {
    hide Core, NoIdle, NoIdleBut;
    var x := s.waiters[w].(phase := p, closed := close);
    NoIdleAtAll(s, x.cid, x.rid);
    DequeueKeeps(s, w, p, close);
    TouchedIdle(s, Dequeue(s, w, p, close), w, x);
    TidyKeeps(Dequeue(s, w, p, close), x.cid, x.rid, env);
  }

  // ---------- Making room ----------

  /** `w` is the newest waiter of a reader that must make room. */
  ghost predicate IsVictim(s: State, c: string, r: string, w: Wid) {
    InQueue(s, w) && IsDonor(s, c, r, s.waiters[w].cid, s.waiters[w].rid)
    && var q := s.groups[s.waiters[w].cid].readers[s.waiters[w].rid].queue; w == q[|q| - 1]
  }

  /** `victims` are what the eviction loop takes, one a turn, until there is room or no donor. */
  ghost predicate EvictionRun(s: State, c: string, r: string, bytes: nat, victims: seq<Wid>, env: Env)
    requires Settled(s)
    decreases |victims|
  {
    if !Full(s, bytes) then victims == []
    else if victims == [] then NoDonor(s, c, r)
    else IsVictim(s, c, r, victims[0])
         && EvictionRun(Leave(s, victims[0], Rejected, true, env), c, r, bytes, victims[1..], env)
  }

  ghost function AfterEvictions(s: State, c: string, r: string, bytes: nat, victims: seq<Wid>, env: Env): (s': State)
    requires Settled(s) && EvictionRun(s, c, r, bytes, victims, env)
    ensures Settled(s') && s'.waiting <= s.waiting && s'.active == s.active && s'.budget == s.budget
    ensures Full(s', bytes) ==> NoDonor(s', c, r)
    decreases |victims|
  {
    if victims == [] then s
    else AfterEvictions(Leave(s, victims[0], Rejected, true, env), c, r, bytes, victims[1..], env)
  }

  /** `victims` lead from `s` to `s'`, each taken while there was no room. */
  ghost predicate Evicting(s: State, c: string, r: string, bytes: nat, victims: seq<Wid>, env: Env, s': State)
    requires Settled(s)
    decreases |victims|
  {
    if victims == [] then s' == s
    else Full(s, bytes) && InQueue(s, victims[0]) && IsVictim(s, c, r, victims[0])
         && Evicting(Leave(s, victims[0], Rejected, true, env), c, r, bytes, victims[1..], env, s')
  }

  lemma {:induction false} EvictingMore(s: State, c: string, r: string, bytes: nat, victims: seq<Wid>, env: Env, m: State, w: Wid)
    requires Settled(s) && Settled(m) && Evicting(s, c, r, bytes, victims, env, m) && Full(m, bytes) && IsVictim(m, c, r, w)
    ensures Evicting(s, c, r, bytes, victims + [w], env, Leave(m, w, Rejected, true, env))
    decreases |victims|
  {
    hide Core, NoIdle, IsVictim, Full, Withdraw;
    if victims == [] {
      assert (victims + [w])[1..] == [];
      assert InQueue(m, w) by { VictimQueued(m, c, r, w); }
    } else {
      EvictingMore(Leave(s, victims[0], Rejected, true, env), c, r, bytes, victims[1..], env, m, w);
      assert (victims + [w])[1..] == victims[1..] + [w];
    }
  }

  lemma {:induction false} EvictingEnds(s: State, c: string, r: string, bytes: nat, victims: seq<Wid>, env: Env, m: State)
    requires Settled(s) && Evicting(s, c, r, bytes, victims, env, m) && (Full(m, bytes) ==> NoDonor(m, c, r))
    ensures EvictionRun(s, c, r, bytes, victims, env) && AfterEvictions(s, c, r, bytes, victims, env) == m
    decreases |victims|
  {
    hide Core, NoIdle, IsVictim, Full, Withdraw, NoDonor;
    if victims != [] {
      EvictingEnds(Leave(s, victims[0], Rejected, true, env), c, r, bytes, victims[1..], env, m);
    }
  }

  /** Some reader of a group with work has the longest queue there. */
  lemma LongestReaderExists(s: State, c: string, minimum: int) returns (d: string)
    requires Core(s) && c in s.groups && !NoLongerReader(s.groups[c], minimum)
    ensures IsLongestReader(s.groups[c], minimum, d)
  {
    hide Core;
    var g := s.groups[c];
    d :| d in g.readers && |g.readers[d].queue| > Max(0, minimum);
    ghost var seen := {d};
    while seen != g.readers.Keys
      invariant d in seen && seen <= g.readers.Keys && |g.readers[d].queue| > Max(0, minimum)
      invariant forall q :: q in seen ==> |g.readers[q].queue| <= |g.readers[d].queue|
      decreases g.readers.Keys - seen
    {
      assert g.readers.Keys - seen != {};
      var q :| q in g.readers.Keys - seen;
      if |g.readers[q].queue| > |g.readers[d].queue| { d := q; }
      seen := seen + {q};
    }
  }

  lemma LargestGroupExists(s: State, c: string) returns (d: string)
    requires !NoLargerGroup(s, c)
    ensures IsLargestGroup(s, c, d)
  {
    d :| d in s.groups && s.groups[d].waiting > GroupWaitingNow(s, c) + 1;
    ghost var seen := {d};
    while seen != s.groups.Keys
      invariant d in seen && seen <= s.groups.Keys && s.groups[d].waiting > GroupWaitingNow(s, c) + 1
      invariant forall q :: q in seen ==> s.groups[q].waiting <= s.groups[d].waiting
      decreases s.groups.Keys - seen
    {
      assert s.groups.Keys - seen != {};
      var q :| q in s.groups.Keys - seen;
      if s.groups[q].waiting > s.groups[d].waiting { d := q; }
      seen := seen + {q};
    }
  }

  /** Either somebody must make room or nobody can be asked to. */
  lemma DonorOrNone(s: State, c: string, r: string)
    requires Core(s)
    ensures NoDonor(s, c, r) <==> !exists w :: IsVictim(s, c, r, w)
  {
    hide Tally;
    if !NoDonor(s, c, r) {
      var dc, dr;
      if NoLargerGroup(s, c) {
        dc := c;
        dr := LongestReaderExists(s, c, QueueLengthNow(s, c, r) + 1);
      } else {
        dc := LargestGroupExists(s, c);
        WaitingNotNegative(s, c);
        WaitingGroupHasLongReader(s, dc);
        dr := LongestReaderExists(s, dc, -1);
      }
      var q := s.groups[dc].readers[dr].queue;
      QueuedHere(s, dc, dr, q[|q| - 1]);
      assert IsVictim(s, c, r, q[|q| - 1]);
    }
  }

  lemma WaitingNotNegative(s: State, c: string)
    requires Core(s)
    ensures GroupWaitingNow(s, c) >= 0
  {
    hide Tally, HistoryOk, OrdersOk;
    if c in s.groups {
      assert GroupOk(s.waiters, c, s.groups[c]);
      TallyAtLeast(s.waiters, GroupWaiting(c));
    }
  }

  lemma WaitingGroupHasLongReader(s: State, c: string)
    requires Core(s) && c in s.groups && s.groups[c].waiting > 0
    ensures !NoLongerReader(s.groups[c], -1)
  {
    hide Core;
    assert c in ReadyGroups(s.groups);
    ReadyGroupHasReader(s, c);
    var q :| q in ReadyReaders(s.groups[c]);
    assert |s.groups[c].readers[q].queue| > 0;
  }

  lemma QueuedHere(s: State, c: string, r: string, w: Wid)
    requires Core(s) && Seated(s, c, r) && w in s.groups[c].readers[r].queue
    ensures InQueue(s, w) && s.waiters[w].cid == c && s.waiters[w].rid == r
  {
    hide Tally, HistoryOk, OrdersOk;
    assert ReaderOk(s.waiters, c, r, s.groups[c].readers[r]);
  }

  /** The eviction loop always comes to an end. */
  lemma {:induction false} EvictionEnds(s: State, c: string, r: string, bytes: nat, env: Env) returns (victims: seq<Wid>)
    requires Settled(s)
    ensures EvictionRun(s, c, r, bytes, victims, env)
    decreases s.waiting
  {
    hide Core, NoIdle, IsVictim, NoDonor, Withdraw;
    DonorOrNone(s, c, r);
    if !Full(s, bytes) || NoDonor(s, c, r) {
      victims := [];
    } else {
      var w :| IsVictim(s, c, r, w);
      VictimQueued(s, c, r, w);
      var rest := EvictionEnds(Leave(s, w, Rejected, true, env), c, r, bytes, env);
      victims := [w] + rest;
      assert victims[1..] == rest;
    }
  }

  lemma VictimQueued(s: State, c: string, r: string, w: Wid)
    requires Core(s) && IsVictim(s, c, r, w)
    ensures InQueue(s, w) && s.waiting > 0
  {
    hide Tally, HistoryOk, OrdersOk;
    TallyAtLeast(s.waiters, WaitingCount);
  }

  /** What an eviction leaves its beneficiary and its donor.

    The group and the reader being admitted stay exactly as they are, apart from the
    count of the group's waiters, and the donor still waits at least as long a queue as
    the newcomer's will be. */
  lemma EvictionSpares(s: State, c: string, r: string, w: Wid, env: Env)
    requires Settled(s) && IsVictim(s, c, r, w)
    ensures var s' := Leave(s, w, Rejected, true, env);
            (c in s.groups ==> c in s'.groups && s'.groups[c].service == s.groups[c].service
                               && s'.groups[c].estimate == s.groups[c].estimate && s'.groups[c].clock == s.groups[c].clock)
            && (Seated(s, c, r) ==> Seated(s', c, r) && s'.groups[c].readers[r] == s.groups[c].readers[r])
            && (c !in s.groups ==> c !in s'.groups) && (!Seated(s, c, r) ==> !Seated(s', c, r))
    ensures var s', dc, dr := Leave(s, w, Rejected, true, env), s.waiters[w].cid, s.waiters[w].rid;
            if dc == c then QueueLengthNow(s', c, dr) >= QueueLengthNow(s', c, r) + 1
            else GroupWaitingNow(s', dc) >= GroupWaitingNow(s', c) + 1
  {
    hide Tally, WaitersOk, OrdersOk, HistoryOk, ReaderOk;
    var dc, dr := s.waiters[w].cid, s.waiters[w].rid;
    QueueDistinct(s, dc, dr);
    WithoutKeeps(s.groups[dc].readers[dr].queue, w);
    WaitingNotNegative(s, c);
    if dc == c { QueueWithinGroup(s, c, dr); }
  }

  lemma QueueWithinGroup(s: State, c: string, r: string)
    requires Core(s) && Seated(s, c, r)
    ensures |s.groups[c].readers[r].queue| <= s.groups[c].waiting
  {
    hide Tally, WaitersOk, OrdersOk, HistoryOk;
    assert ReaderOk(s.waiters, c, r, s.groups[c].readers[r]) && GroupOk(s.waiters, c, s.groups[c]);
    TallyMonotone(s.waiters, ReaderWaiting(c, r), GroupWaiting(c));
  }

  // ---------- Admission ----------

  lemma NobodyAt(s: State, c: string, r: string)
    requires WaitersOk(s) && !Seated(s, c, r)
    ensures Tally(s.waiters, ReaderWaiting(c, r)) == Tally(s.waiters, ReaderActive(c, r)) == 0
    ensures Tally(s.waiters, ReaderCharge(c, r)) == 0
  {
    hide Tally;
    TallyAtLeast(s.waiters, ReaderWaiting(c, r));
    TallyAtLeast(s.waiters, ReaderActive(c, r));
    TallyAtLeast(s.waiters, ReaderCharge(c, r));
    TallyNothing(s.waiters, ReaderWaiting(c, r));
    TallyNothing(s.waiters, ReaderActive(c, r));
    TallyNothing(s.waiters, ReaderCharge(c, r));
  }

  lemma NobodyIn(s: State, c: string)
    requires WaitersOk(s) && c !in s.groups
    ensures Tally(s.waiters, GroupWaiting(c)) == Tally(s.waiters, GroupActive(c)) == Tally(s.waiters, GroupCharge(c)) == 0
  {
    hide Tally;
    TallyNothing(s.waiters, GroupWaiting(c));
    TallyNothing(s.waiters, GroupActive(c));
    TallyNothing(s.waiters, GroupCharge(c));
  }

  /** A restored group or reader starts at or above the clock, with a real estimate. */
  lemma RestoredGroupOk(s: State, c: string, now: int)
    requires HistoryOk(s.budget, s.lru, s.groups) && s.clock >= 0
    ensures var g := RestoreGroup(s, c, now);
            g.readers == map[] && g.active == g.waiting == 0 && g.service >= s.clock && g.estimate >= MILLISECOND && g.clock >= 0
  {
    RecallFinds(s.lru, HistoryKey(c, ""));
  }

  lemma RestoredReaderOk(s: State, c: string, r: string, clock: int, now: int)
    requires HistoryOk(s.budget, s.lru, s.groups)
    ensures var rd := RestoreReader(s, c, r, clock, now);
            rd.queue == [] && rd.active == 0 && rd.service >= clock && rd.estimate >= MILLISECOND
  {
    RecallFinds(s.lru, HistoryKey(c, r));
  }

  /** Give the newcomer its group and reader, forgetting what was remembered of them. */
  function Seat(s: State, c: string, r: string, g0: Group, rd0: Reader): State {
    var g := if c in s.groups then s.groups[c] else g0;
    var rd := if r in g.readers then g.readers[r] else rd0;
    var lru1 := if c in s.groups then s.lru else Forget(s.lru, HistoryKey(c, ""));
    var lru2 := if r in g.readers then lru1 else Forget(lru1, HistoryKey(c, r));
    s.(groups := s.groups[c := g.(readers := g.readers[r := rd])], lru := lru2)
  }

  ghost predicate FreshSeat(s: State, c: string, r: string, g0: Group, rd0: Reader) {
    c != "" && r != ""
    && (c !in s.groups ==> g0.readers == map[] && g0.active == g0.waiting == 0 && g0.service >= 0
                           && g0.estimate >= MILLISECOND && g0.clock >= 0)
    && (!Seated(s, c, r) ==> rd0.queue == [] && rd0.active == 0 && rd0.service >= 0 && rd0.estimate >= MILLISECOND)
  }

  lemma SeatHistory(s: State, c: string, r: string, g0: Group, rd0: Reader)
    requires HistoryOk(s.budget, s.lru, s.groups) && FreshSeat(s, c, r, g0, rd0)
    ensures var s' := Seat(s, c, r, g0, rd0); HistoryOk(s'.budget, s'.lru, s'.groups)
  {
    ForgetKeeps(s.lru, HistoryKey(c, ""));
    ForgetKeeps(s.lru, HistoryKey(c, r));
    ForgetKeeps(Forget(s.lru, HistoryKey(c, "")), HistoryKey(c, r));
    hide Forget;
    var s' := Seat(s, c, r, g0, rd0);
    assert forall k :: Present(s'.groups, k) ==> Present(s.groups, k) || k == HistoryKey(c, "") || k == HistoryKey(c, r);
  }

  lemma SeatGroups(s: State, c: string, r: string, g0: Group, rd0: Reader)
    requires WaitersOk(s) && GroupsOk(s) && FreshSeat(s, c, r, g0, rd0)
    ensures GroupsOk(Seat(s, c, r, g0, rd0))
  {
    hide Tally, Forget;
    if c !in s.groups { NobodyIn(s, c); }
    if !Seated(s, c, r) { NobodyAt(s, c, r); }
    hide WaitersOk;
    var s' := Seat(s, c, r, g0, rd0);
    forall d, q | Seated(s', d, q) ensures ReaderOk(s'.waiters, d, q, s'.groups[d].readers[q]) {
      if Seated(s, d, q) { assert ReaderOk(s.waiters, d, q, s.groups[d].readers[q]); }
    }
  }

  lemma SeatOrders(s: State, c: string, r: string, g0: Group, rd0: Reader)
    requires OrdersOk(s) && FreshSeat(s, c, r, g0, rd0)
    ensures OrdersOk(Seat(s, c, r, g0, rd0))
  {
    hide TurnsUpTo, Seat, ReadyGroups, ReadyReaders;
    SeatReady(s, c, r, g0, rd0);
    NoTurns(s.order);
  }

  /** A newcomer that has not joined its queue yet changes nothing in the heaps. */
  lemma SeatReady(s: State, c: string, r: string, g0: Group, rd0: Reader)
    requires FreshSeat(s, c, r, g0, rd0)
    ensures var s' := Seat(s, c, r, g0, rd0);
            s'.order == s.order && ReadyGroups(s'.groups) == ReadyGroups(s.groups)
            && forall d :: d in s'.groups ==>
                 ReadyReaders(s'.groups[d]) == if d in s.groups then ReadyReaders(s.groups[d]) else map[]
  {
    hide Forget, ReaderOk, GroupOk;
  }

  lemma NoTurns(order: int)
    ensures TurnsUpTo(map[], order)
  {
  }

  lemma SeatPlaces(s: State, c: string, r: string, g0: Group, rd0: Reader)
    requires WaitersOk(s) && NoIdleBut(s, c, r) && FreshSeat(s, c, r, g0, rd0)
    ensures var s' := Seat(s, c, r, g0, rd0); WaitersOk(s') && NoIdleBut(s', c, r) && Seated(s', c, r)
  {
    hide Forget;
    var s' := Seat(s, c, r, g0, rd0);
    assert forall d, q :: Seated(s, d, q) ==> Seated(s', d, q) && s'.groups[d].readers[q] == s.groups[d].readers[q];
  }

  lemma SeatKeeps(s: State, c: string, r: string, g0: Group, rd0: Reader)
    requires Core(s) && NoIdleBut(s, c, r) && FreshSeat(s, c, r, g0, rd0)
    ensures var s' := Seat(s, c, r, g0, rd0); Core(s') && NoIdleBut(s', c, r) && Seated(s', c, r)
  {
    hide Tally, Forget, HistoryOk, OrdersOk, GroupsOk, WaitersOk, NoIdleBut;
    SeatHistory(s, c, r, g0, rd0);
    SeatGroups(s, c, r, g0, rd0);
    SeatOrders(s, c, r, g0, rd0);
    SeatPlaces(s, c, r, g0, rd0);
  }

  lemma ReaderJoined(ws: map<Wid, Waiter>, w: Wid, x: Waiter, rd: Reader, order: int)
    requires ReaderOk(ws, x.cid, x.rid, rd) && w !in ws && x.phase.Queued?
    ensures ReaderOk(ws[w := x], x.cid, x.rid, rd.(queue := rd.queue + [w], order := order))
  {
    hide Tally;
    assert w !in rd.queue;
    TallyUpdate(ws, w, x);
  }

  lemma GroupJoined(ws: map<Wid, Waiter>, w: Wid, x: Waiter, g: Group, g': Group)
    requires GroupOk(ws, x.cid, g) && w !in ws && x.phase.Queued?
    requires g' == g.(waiting := g.waiting + 1, order := g'.order, readers := g'.readers)
    ensures GroupOk(ws[w := x], x.cid, g')
  {
    hide Tally;
    TallyUpdate(ws, w, x);
  }

  lemma EnqueueTouches(s: State, c: string, r: string, w: Wid, bytes: nat, g0: Group, rd0: Reader)
    requires w !in s.waiters
    ensures Touches(Seat(s, c, r, g0, rd0), Enqueue(s, c, r, w, bytes, g0, rd0), w, Waiter(c, r, bytes, Queued, false))
  {
  }

  lemma EnqueueSeat(s: State, c: string, r: string, w: Wid, bytes: nat, g0: Group, rd0: Reader)
    requires GroupsOk(Seat(s, c, r, g0, rd0)) && w !in s.waiters
    ensures var s' := Enqueue(s, c, r, w, bytes, g0, rd0);
            GroupOk(s'.waiters, c, s'.groups[c]) && ReaderOk(s'.waiters, c, r, s'.groups[c].readers[r])
  {
    var s1, s' := Seat(s, c, r, g0, rd0), Enqueue(s, c, r, w, bytes, g0, rd0);
    var x := Waiter(c, r, bytes, Queued, false);
    assert Seated(s1, c, r);
    assert ReaderOk(s1.waiters, c, r, s1.groups[c].readers[r]) && GroupOk(s1.waiters, c, s1.groups[c]);
    hide Tally, Forget, GroupsOk, ReaderOk, GroupOk;
    ReaderJoined(s1.waiters, w, x, s1.groups[c].readers[r], s'.groups[c].readers[r].order);
    GroupJoined(s1.waiters, w, x, s1.groups[c], s'.groups[c]);
  }

  lemma EnqueueOrders(s: State, c: string, r: string, w: Wid, bytes: nat, g0: Group, rd0: Reader)
    requires OrdersOk(Seat(s, c, r, g0, rd0)) && w !in s.waiters
    ensures OrdersOk(Enqueue(s, c, r, w, bytes, g0, rd0))
  {
    hide Forget, OrdersOk;
    EnqueueTouches(s, c, r, w, bytes, g0, rd0);
    TouchedOrders(Seat(s, c, r, g0, rd0), Enqueue(s, c, r, w, bytes, g0, rd0), w, Waiter(c, r, bytes, Queued, false));
  }

  lemma EnqueueKeeps(s: State, c: string, r: string, w: Wid, bytes: nat, g0: Group, rd0: Reader)
    requires Settled(s) && FreshSeat(s, c, r, g0, rd0) && w !in s.waiters && !Full(s, bytes)
    ensures Settled(Enqueue(s, c, r, w, bytes, g0, rd0))
  {
    hide Tally, Forget, HistoryOk, OrdersOk, GroupsOk, WaitersOk, NoIdleBut, NoIdle;
    var s1, s' := Seat(s, c, r, g0, rd0), Enqueue(s, c, r, w, bytes, g0, rd0);
    var x := Waiter(c, r, bytes, Queued, false);
    NoIdleAtAll(s, c, r);
    SeatKeeps(s, c, r, g0, rd0);
    EnqueueTouches(s, c, r, w, bytes, g0, rd0);
    EnqueueSeat(s, c, r, w, bytes, g0, rd0);
    EnqueueOrders(s, c, r, w, bytes, g0, rd0);
    WaitingNotNegative(s1, c);
    hide ReaderOk, GroupOk;
    TallyUpdate(s.waiters, w, x);
    TouchedWaiters(s1, s', w, x);
    TouchedGroups(s1, s', w, x);
    TouchedHistory(s1, s', w, x);
    TouchedIdle(s1, s', w, x);
    BusySeat(s', c, r);
  }

  lemma NoIdleAtAll(s: State, c: string, r: string)
    requires NoIdle(s)
    ensures NoIdleBut(s, c, r)
  {
  }

  lemma BusySeat(s: State, c: string, r: string)
    requires NoIdleBut(s, c, r) && Seated(s, c, r) && !IdleGroup(s.groups[c]) && !IdleReader(s.groups[c].readers[r])
    ensures NoIdle(s)
  {
  }

  lemma RefuseGroups(s: State, w: Wid, x: Waiter)
    requires GroupsOk(s) && w !in s.waiters && x.phase.Rejected?
    ensures GroupsOk(s.(waiters := s.waiters[w := x], rejected := s.rejected + 1))
  {
    hide Tally;
    TallyUpdate(s.waiters, w, x);
    forall d, q | Seated(s, d, q) ensures ReaderOk(s.waiters[w := x], d, q, s.groups[d].readers[q]) {
      assert ReaderOk(s.waiters, d, q, s.groups[d].readers[q]);
      assert QueueOk(s.waiters[w := x], d, q, s.groups[d].readers[q].queue);
    }
  }

  lemma RefuseKeeps(s: State, c: string, r: string, w: Wid, bytes: nat)
    requires Settled(s) && w !in s.waiters
    ensures Settled(Refuse(s, c, r, w, bytes))
  {
    hide Tally, TurnsUpTo, HistoryOk, GroupsOk;
    RefuseGroups(s, w, Waiter(c, r, bytes, Rejected, false));
    TallyUpdate(s.waiters, w, Waiter(c, r, bytes, Rejected, false));
  }

  /** One admission under the lock: restore, make room, then queue and dispatch, or refuse. */
  ghost function Admit(s: State, c: string, r: string, w: Wid, bytes: nat, now: int, victims: seq<Wid>, env: Env): (s': State)
    requires Inv(s) && c != "" && r != "" && w !in s.waiters && EvictionRun(s, c, r, bytes, victims, env)
    ensures Inv(s')
  {
    var g0 := if c in s.groups then s.groups[c] else RestoreGroup(s, c, now);
    var rd0 := if Seated(s, c, r) then s.groups[c].readers[r] else RestoreReader(s, c, r, g0.clock, now);
    AdmitReady(s, c, r, w, bytes, now, victims, env);
    var s1 := AfterEvictions(s, c, r, bytes, victims, env);
    if Full(s1, bytes) then Refuse(s1, c, r, w, bytes)
    else Dispatch(Enqueue(s1, c, r, w, bytes, g0, rd0), env)
  }

  lemma AdmitReady(s: State, c: string, r: string, w: Wid, bytes: nat, now: int, victims: seq<Wid>, env: Env)
    requires Inv(s) && c != "" && r != "" && w !in s.waiters && EvictionRun(s, c, r, bytes, victims, env)
    ensures var s1 := AfterEvictions(s, c, r, bytes, victims, env);
            var g0 := if c in s.groups then s.groups[c] else RestoreGroup(s, c, now);
            var rd0 := if Seated(s, c, r) then s.groups[c].readers[r] else RestoreReader(s, c, r, g0.clock, now);
            w !in s1.waiters
            && (Full(s1, bytes) ==> Inv(Refuse(s1, c, r, w, bytes)))
            && (!Full(s1, bytes) ==> Settled(Enqueue(s1, c, r, w, bytes, g0, rd0)))
  {
    hide Tally, WaitersOk, OrdersOk, HistoryOk, ReaderOk, NoIdle, IsVictim, NoDonor;
    var s1 := AfterEvictions(s, c, r, bytes, victims, env);
    var g0 := if c in s.groups then s.groups[c] else RestoreGroup(s, c, now);
    EvictionsSpare(s, c, r, bytes, victims, env);
    RestoredGroupOk(s, c, now);
    assert g0.clock >= 0;
    RestoredReaderOk(s, c, r, g0.clock, now);
    hide GroupsOk, Core;
    if Full(s1, bytes) {
      RefuseKeeps(s1, c, r, w, bytes);
    } else {
      var rd0 := if Seated(s, c, r) then s.groups[c].readers[r] else RestoreReader(s, c, r, g0.clock, now);
      EnqueueKeeps(s1, c, r, w, bytes, g0, rd0);
    }
  }

  /** Over a whole run of evictions: the newcomer's own group and reader are never retired. */
  lemma {:induction false} EvictionsSpare(s: State, c: string, r: string, bytes: nat, victims: seq<Wid>, env: Env)
    requires Settled(s) && EvictionRun(s, c, r, bytes, victims, env)
    ensures var s' := AfterEvictions(s, c, r, bytes, victims, env);
            (c in s.groups <==> c in s'.groups) && (Seated(s, c, r) <==> Seated(s', c, r))
            && (c in s.groups ==> s'.groups[c].service == s.groups[c].service
                                  && s'.groups[c].estimate == s.groups[c].estimate && s'.groups[c].clock == s.groups[c].clock)
            && (Seated(s, c, r) ==> s'.groups[c].readers[r] == s.groups[c].readers[r])
            && s'.waiters.Keys == s.waiters.Keys && s'.log == s.log && s'.clock == s.clock
    decreases |victims|
  {
    hide Core, NoIdle, IsVictim, NoDonor, Full;
    if victims != [] {
      VictimAtHead(s, c, r, bytes, victims, env);
      EvictionSpares(s, c, r, victims[0], env);
      EvictionsSpare(Leave(s, victims[0], Rejected, true, env), c, r, bytes, victims[1..], env);
    }
  }

  lemma VictimAtHead(s: State, c: string, r: string, bytes: nat, victims: seq<Wid>, env: Env)
    requires Settled(s) && EvictionRun(s, c, r, bytes, victims, env) && victims != []
    ensures IsVictim(s, c, r, victims[0]) && InQueue(s, victims[0])
  {
  }

  // ---------- Giving up, finishing and dropping ----------

  /** A waiter that wakes still queued gives up its place; any other wake-up changes nothing. */
  ghost function GiveUp(s: State, w: Wid, contextDone: bool, env: Env): (s': State)
    requires Inv(s) && w in s.waiters
    ensures Inv(s')
  {
    if s.waiters[w].phase.Queued? then
      Leave(s, w, if contextDone then Cancelled else Expired, false, env)
    else s
  }

  /** The first release of a running request returns its worker; a second changes nothing. */
  ghost function Release(s: State, w: Wid, elapsed: int, env: Env): (s': State)
    requires Inv(s) && w in s.waiters
    ensures Inv(s')
  {
    if s.waiters[w].phase.Running? then
      FinishKeeps(s, w, elapsed, env);
      Dispatch(Finish(s, w, elapsed, env), env)
    else s
  }

  function Finish(s: State, w: Wid, elapsed: int, env: Env): State
    requires IsRunning(s, w)
  {
    Tidy(Complete(s, w, elapsed), s.waiters[w].cid, s.waiters[w].rid, env)
  }

  lemma FinishKeeps(s: State, w: Wid, elapsed: int, env: Env)
    requires Settled(s) && w in s.waiters && s.waiters[w].phase.Running?
    ensures IsRunning(s, w) && Settled(Finish(s, w, elapsed, env))
  {
    var x := s.waiters[w].(phase := Completed);
    NoIdleAtAll(s, x.cid, x.rid);
    assert IsRunning(s, w);
    hide Core, NoIdle, NoIdleBut;
    CompleteKeeps(s, w, elapsed);
    TouchedIdle(s, Complete(s, w, elapsed), w, x);
    TidyKeeps(Complete(s, w, elapsed), x.cid, x.rid, env);
  }

  /** `order` empties every queue of the community, each from its front. */
  ghost predicate DropRun(s: State, c: string, order: seq<Wid>, env: Env)
    requires Settled(s)
    decreases |order|
  {
    if order == [] then GroupWaitingNow(s, c) == 0
    else InQueue(s, order[0]) && s.waiters[order[0]].cid == c
         && order[0] == s.groups[c].readers[s.waiters[order[0]].rid].queue[0]
         && DropRun(Leave(s, order[0], Cancelled, true, env), c, order[1..], env)
  }

  ghost function AfterDrops(s: State, c: string, order: seq<Wid>, env: Env): (s': State)
    requires Settled(s) && DropRun(s, c, order, env)
    ensures Settled(s') && GroupWaitingNow(s', c) == 0
    decreases |order|
  {
    if order == [] then s
    else AfterDrops(Leave(s, order[0], Cancelled, true, env), c, order[1..], env)
  }

  /** `order` leads from `s` to `s'`, each taken from the front of its queue. */
  ghost predicate Dropping(s: State, c: string, order: seq<Wid>, env: Env, s': State)
    requires Settled(s)
    decreases |order|
  {
    if order == [] then s' == s
    else InQueue(s, order[0]) && s.waiters[order[0]].cid == c
         && order[0] == s.groups[c].readers[s.waiters[order[0]].rid].queue[0]
         && Dropping(Leave(s, order[0], Cancelled, true, env), c, order[1..], env, s')
  }

  lemma {:induction false} DroppingMore(s: State, c: string, order: seq<Wid>, env: Env, m: State, w: Wid)
    requires Settled(s) && Settled(m) && Dropping(s, c, order, env, m) && InQueue(m, w) && m.waiters[w].cid == c
    requires w == m.groups[c].readers[m.waiters[w].rid].queue[0]
    ensures Dropping(s, c, order + [w], env, Leave(m, w, Cancelled, true, env))
    decreases |order|
  {
    hide Core, NoIdle, Withdraw;
    if order == [] {
      assert (order + [w])[1..] == [];
    } else {
      DroppingMore(Leave(s, order[0], Cancelled, true, env), c, order[1..], env, m, w);
      assert (order + [w])[1..] == order[1..] + [w];
    }
  }

  lemma {:induction false} DroppingEnds(s: State, c: string, order: seq<Wid>, env: Env, m: State)
    requires Settled(s) && Dropping(s, c, order, env, m) && GroupWaitingNow(m, c) == 0
    ensures DropRun(s, c, order, env) && AfterDrops(s, c, order, env) == m
    decreases |order|
  {
    hide Core, NoIdle, Withdraw;
    if order != [] {
      DroppingEnds(Leave(s, order[0], Cancelled, true, env), c, order[1..], env, m);
    }
  }

  lemma {:induction false} DropEnds(s: State, c: string, env: Env) returns (order: seq<Wid>)
    requires Settled(s)
    ensures DropRun(s, c, order, env)
    decreases s.waiting
  {
    hide Core, NoIdle, Withdraw;
    WaitingNotNegative(s, c);
    if GroupWaitingNow(s, c) == 0 {
      order := [];
    } else {
      assert c in ReadyGroups(s.groups);
      ReadyMeansWaiting(s);
      ReadyGroupHasReader(s, c);
      var r :| r in ReadyReaders(s.groups[c]);
      ReadyCanPop(s, c, r);
      var w := s.groups[c].readers[r].queue[0];
      var rest := DropEnds(Leave(s, w, Cancelled, true, env), c, env);
      order := [w] + rest;
      assert order[1..] == rest;
    }
  }

  /** From now on the community leaves no history behind. */
  function Discard(s: State, c: string): State {
    if c in s.groups then s.(groups := s.groups[c := s.groups[c].(discardHistory := true)]) else s
  }

  lemma DiscardKeeps(s: State, c: string)
    requires Settled(s)
    ensures Settled(Discard(s, c))
  {
    hide Tally, HistoryOk, TurnsUpTo, ReaderOk;
    var s' := Discard(s, c);
    if c in s.groups {
      DiscardSeats(s, c);
      SamePresence(s.budget, s.lru, s.groups, s'.groups);
    }
  }

  lemma DiscardSeats(s: State, c: string)
    requires c in s.groups
    ensures var s' := Discard(s, c);
            (forall d, q :: Seated(s', d, q) <==> Seated(s, d, q))
            && (forall d :: d in s.groups ==> d in s'.groups && s'.groups[d].readers == s.groups[d].readers)
            && ReadyGroups(s'.groups) == ReadyGroups(s.groups)
  {
  }

  /** All that is remembered of the community and its readers goes. */
  function Disown(s: State, c: string): State {
    s.(lru := ForgetCommunity(s.lru, c), touches := s.touches + [GoneAll(c)])
  }

  lemma ForgottenKeeps(s: State, c: string)
    requires Settled(s)
    ensures Settled(Disown(s, c))
  {
    hide Tally, TurnsUpTo, ReaderOk, GroupOk;
    ForgetCommunityKeeps(s.lru, c);
  }

  ghost function Drop(s: State, c: string, order: seq<Wid>, env: Env): (s': State)
    requires Inv(s) && Settled(Discard(s, c)) && DropRun(Discard(s, c), c, order, env)
    ensures Inv(s')
  {
    var s1 := AfterDrops(Discard(s, c), c, order, env);
    ForgottenKeeps(s1, c);
    Dispatch(Disown(s1, c), env)
  }

  // ---------- Events and runs ----------

  datatype Event =
    | Arrive(c: string, r: string, w: Wid, payload: int, now: int, victims: seq<Wid>)
    | Wake(w: Wid, contextDone: bool)
    | Done(w: Wid, elapsed: int)
    | Delete(c: string, order: seq<Wid>)

  /** Every queued request is charged a fixed allowance and twice its payload. */
  function RequestBytes(payload: int): nat { REQUEST_ALLOWANCE + 2 * Max(0, payload) }

  /** Requests without an identity, or too large for the queue, never take the lock. */
  predicate TakesLock(b: Budget, e: Event) {
    e.Arrive? ==> e.c != "" && e.r != "" && RequestBytes(e.payload) <= b.queueBytes
  }

  ghost predicate Enabled(s: State, e: Event, env: Env) {
    Inv(s) && match e
    case Arrive(c, r, w, payload, _, victims) =>
      TakesLock(s.budget, e) ==> w !in s.waiters && EvictionRun(s, c, r, RequestBytes(payload), victims, env)
    case Wake(w, _) => w in s.waiters
    case Done(w, _) => w in s.waiters
    case Delete(c, order) => Settled(Discard(s, c)) && DropRun(Discard(s, c), c, order, env)
  }

  ghost function Next(s: State, e: Event, env: Env): (s': State)
    requires Enabled(s, e, env)
    ensures Inv(s')
  {
    match e
    case Arrive(c, r, w, payload, now, victims) =>
      if TakesLock(s.budget, e) then Admit(s, c, r, w, RequestBytes(payload), now, victims, env) else s
    case Wake(w, contextDone) => GiveUp(s, w, contextDone, env)
    case Done(w, elapsed) => Release(s, w, elapsed, env)
    case Delete(c, order) => Drop(s, c, order, env)
  }

  function Init(b: Budget): State {
    State(b, map[], map[], [], 0, 0, 0, 0, 0, 0, 0, 0, 0, [], [])
  }

  lemma InitOk(b: Budget)
    ensures Inv(Init(b))
  {
    var s := Init(b);
    assert Counters(s);
    assert ReadyGroups(s.groups) == map[];
  }

  type Trace = seq<(Event, Env)>

  ghost predicate Run(s: State, trace: Trace)
    decreases |trace|
  {
    trace == [] || (Enabled(s, trace[0].0, trace[0].1) && Run(Next(s, trace[0].0, trace[0].1), trace[1..]))
  }

  ghost function After(s: State, trace: Trace): (s': State)
    requires Inv(s) && Run(s, trace)
    ensures Inv(s')
    decreases |trace|
  {
    if trace == [] then s else After(Next(s, trace[0].0, trace[0].1), trace[1..])
  }
}

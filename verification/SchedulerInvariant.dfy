/** What holds of the scheduler every time its lock is released, and that every step keeps it. */
module SchedulerInvariant {
  import opened SchedulerState
  import opened SchedulerSteps

  // ---------- The invariant ----------

  /** Queued waiters sit, unclosed, in the queue of their own reader; running ones hold a
      worker in a group and reader that are still present. */
  ghost predicate WaitersOk(s: State) {
    ChargesPositive(s.waiters)
    && (forall w :: w in s.waiters && s.waiters[w].phase.Queued? ==> InQueue(s, w))
    && (forall w :: w in s.waiters && s.waiters[w].phase.Running? ==>
          s.waiters[w].closed && Seated(s, s.waiters[w].cid, s.waiters[w].rid))
  }

  ghost predicate QueueOk(ws: map<Wid, Waiter>, c: string, r: string, q: seq<Wid>) {
    Distinct(q)
    && forall w :: w in q ==> w in ws && ws[w].phase.Queued? && ws[w].cid == c && ws[w].rid == r
  }

  ghost predicate ReaderOk(ws: map<Wid, Waiter>, c: string, r: string, rd: Reader) {
    r != "" && QueueOk(ws, c, r, rd.queue)
    && |rd.queue| == Tally(ws, ReaderWaiting(c, r))
    && rd.active == Tally(ws, ReaderActive(c, r))
    && rd.service >= Tally(ws, ReaderCharge(c, r))
    && rd.estimate >= MILLISECOND
  }

  ghost predicate GroupOk(ws: map<Wid, Waiter>, c: string, g: Group) {
    c != ""
    && g.waiting == Tally(ws, GroupWaiting(c))
    && g.active == Tally(ws, GroupActive(c))
    && g.service >= Tally(ws, GroupCharge(c))
    && g.estimate >= MILLISECOND && g.clock >= 0
  }

  ghost predicate GroupsOk(s: State) {
    (forall c :: c in s.groups ==> GroupOk(s.waiters, c, s.groups[c]))
    && (forall c, r :: Seated(s, c, r) ==> ReaderOk(s.waiters, c, r, s.groups[c].readers[r]))
  }

  ghost predicate Counters(s: State) {
    s.clock >= 0
    && s.active == Tally(s.waiters, ActiveCount)
    && s.waiting == Tally(s.waiters, WaitingCount)
    && s.bytes == Tally(s.waiters, WaitingBytes)
    && s.completed == Tally(s.waiters, CompletedCount)
    && s.rejected == Tally(s.waiters, RejectedCount)
    && s.expired == Tally(s.waiters, ExpiredCount)
    && s.cancelled == Tally(s.waiters, CancelledCount)
  }

  ghost predicate TurnsUpTo(keys: map<string, Key>, order: int) {
    DistinctTurns(keys) && forall a :: a in keys ==> keys[a].order <= order
  }

  ghost predicate OrdersOk(s: State) {
    TurnsUpTo(ReadyGroups(s.groups), s.order)
    && forall c :: c in s.groups ==> TurnsUpTo(ReadyReaders(s.groups[c]), s.order)
  }

  /** A remembered key is remembered once and belongs to nobody who is present. */
  predicate Present(groups: map<string, Group>, key: HistoryKey) {
    key.community in groups && (key.reader == "" || key.reader in groups[key.community].readers)
  }

  ghost predicate HistoryOk(b: Budget, lru: seq<History>, groups: map<string, Group>) {
    |lru| <= HistoryBound(b)
    && (forall i, j :: 0 <= i < j < |lru| ==> lru[i].key != lru[j].key)
    && (forall h :: h in lru ==> h.estimate >= MILLISECOND && h.clock >= 0 && !Present(groups, h.key))
  }

  ghost predicate WithinBudget(s: State) {
    s.active <= s.budget.workers && s.waiting <= s.budget.queue && s.bytes <= s.budget.queueBytes
  }

  ghost predicate Core(s: State) {
    WaitersOk(s) && GroupsOk(s) && Counters(s) && OrdersOk(s) && HistoryOk(s.budget, s.lru, s.groups) && WithinBudget(s)
  }

  /** Nobody idle is present, except possibly this group and this reader of it. */
  ghost predicate NoIdleBut(s: State, c: string, r: string) {
    (forall d :: d in s.groups && d != c ==> !IdleGroup(s.groups[d]))
    && (forall d, q :: Seated(s, d, q) && (d, q) != (c, r) ==> !IdleReader(s.groups[d].readers[q]))
  }

  ghost predicate NoIdle(s: State) {
    (forall d :: d in s.groups ==> !IdleGroup(s.groups[d]))
    && (forall d, q :: Seated(s, d, q) ==> !IdleReader(s.groups[d].readers[q]))
  }

  /** Queued work means every worker is busy. */
  ghost predicate Saturated(s: State) { s.waiting > 0 ==> s.active == s.budget.workers }

  ghost predicate Settled(s: State) { Core(s) && NoIdle(s) }

  /** The invariant at every release of the lock. */
  ghost predicate Inv(s: State) { Core(s) && NoIdle(s) && Saturated(s) }

  // ---------- Remembered debt ----------

  lemma {:induction false} ForgetKeeps(lru: seq<History>, key: HistoryKey)
    ensures |Forget(lru, key)| <= |lru|
    ensures forall h :: h in Forget(lru, key) <==> h in lru && h.key != key
    ensures (forall i, j :: 0 <= i < j < |lru| ==> lru[i].key != lru[j].key) ==>
              forall i, j :: 0 <= i < j < |Forget(lru, key)| ==> Forget(lru, key)[i].key != Forget(lru, key)[j].key
  {
    if lru != [] {
      assert lru == [lru[0]] + lru[1..];
      ForgetKeeps(lru[1..], key);
      var rest := Forget(lru[1..], key);
      if lru[0].key != key && (forall i, j :: 0 <= i < j < |lru| ==> lru[i].key != lru[j].key) {
        forall j | 0 <= j < |rest| ensures rest[j].key != lru[0].key {
          assert rest[j] in lru[1..];
        }
      }
    }
  }

  lemma {:induction false} ForgetCommunityKeeps(lru: seq<History>, c: string)
    ensures |ForgetCommunity(lru, c)| <= |lru|
    ensures forall h :: h in ForgetCommunity(lru, c) <==> h in lru && h.key.community != c
    ensures (forall i, j :: 0 <= i < j < |lru| ==> lru[i].key != lru[j].key) ==>
              forall i, j :: 0 <= i < j < |ForgetCommunity(lru, c)| ==>
                ForgetCommunity(lru, c)[i].key != ForgetCommunity(lru, c)[j].key
  {
    if lru != [] {
      assert lru == [lru[0]] + lru[1..];
      ForgetCommunityKeeps(lru[1..], c);
      var rest := ForgetCommunity(lru[1..], c);
      if lru[0].key.community != c && (forall i, j :: 0 <= i < j < |lru| ==> lru[i].key != lru[j].key) {
        forall j | 0 <= j < |rest| ensures rest[j].key != lru[0].key {
          assert rest[j] in lru[1..];
        }
      }
    }
  }

  lemma {:induction false} RecallFinds(lru: seq<History>, key: HistoryKey)
    ensures Recall(lru, key).Some? ==> Recall(lru, key).value in lru && Recall(lru, key).value.key == key
  {
    if lru != [] && lru[0].key != key { RecallFinds(lru[1..], key); }
  }

  /** Remembering a departure keeps the list bounded and free of those present. */
  lemma RememberKeeps(b: Budget, lru: seq<History>, discard: bool, h: History,
                      groups: map<string, Group>, groups': map<string, Group>)
    requires HistoryOk(b, lru, groups) && h.estimate >= MILLISECOND && h.clock >= 0 && !Present(groups', h.key)
    requires forall k :: Present(groups', k) ==> Present(groups, k)
    ensures HistoryOk(b, Remember(b, lru, discard, h), groups')
  {
    ForgetKeeps(lru, h.key);
    var rest := Forget(lru, h.key);
    assert forall i :: 0 <= i < |rest| ==> rest[i] in rest;
    var all := [h] + rest;
    assert forall i :: 0 < i < |all| ==> all[i] == rest[i - 1];
    assert forall x :: x in all ==> x == h || x in rest;
  }

  // ---------- Retiring ----------

  lemma RetireReaderHistory(s: State, c: string, r: string, at: int)
    requires HistoryOk(s.budget, s.lru, s.groups) && Seated(s, c, r) && r != "" && s.groups[c].readers[r].estimate >= MILLISECOND
    ensures var s' := RetireReader(s, c, r, at); HistoryOk(s'.budget, s'.lru, s'.groups)
  {
    hide Remember, HistoryOk;
    var s' := RetireReader(s, c, r, at);
    RememberKeeps(s.budget, s.lru, s.groups[c].discardHistory, History(HistoryKey(c, r),
      s.groups[c].readers[r].service, s.groups[c].readers[r].estimate, 0, at), s.groups, s'.groups);
  }

  lemma RetireReaderOrders(s: State, c: string, r: string, at: int)
    requires OrdersOk(s) && Seated(s, c, r) && IdleReader(s.groups[c].readers[r])
    ensures OrdersOk(RetireReader(s, c, r, at))
  {
    hide Remember, TurnsUpTo;
    var s' := RetireReader(s, c, r, at);
    assert ReadyGroups(s'.groups) == ReadyGroups(s.groups);
    assert forall d :: d in s.groups ==> ReadyReaders(s'.groups[d]) == ReadyReaders(s.groups[d]);
  }

  lemma RetireReaderWaiters(s: State, c: string, r: string, at: int)
    requires WaitersOk(s) && Seated(s, c, r) && ReaderOk(s.waiters, c, r, s.groups[c].readers[r])
    requires IdleReader(s.groups[c].readers[r])
    ensures WaitersOk(RetireReader(s, c, r, at))
  {
    NobodyThere(s, c, r);
    hide Tally, Remember, ReaderOk;
    var s' := RetireReader(s, c, r, at);
    assert forall d, q :: Seated(s, d, q) && (d != c || q != r) ==> Seated(s', d, q) && s'.groups[d].readers[q] == s.groups[d].readers[q];
  }

  lemma RetireReaderKeeps(s: State, c: string, r: string, at: int)
    requires Core(s) && Seated(s, c, r) && IdleReader(s.groups[c].readers[r])
    ensures Core(RetireReader(s, c, r, at))
  {
    hide Tally, Remember, OrdersOk, HistoryOk, WaitersOk;
    assert ReaderOk(s.waiters, c, r, s.groups[c].readers[r]);
    RetireReaderHistory(s, c, r, at);
    RetireReaderOrders(s, c, r, at);
    RetireReaderWaiters(s, c, r, at);
    hide ReaderOk, GroupOk;
    var s' := RetireReader(s, c, r, at);
    assert forall d, q :: Seated(s', d, q) ==> Seated(s, d, q) && s'.groups[d].readers[q] == s.groups[d].readers[q];
    assert forall d :: d in s'.groups ==> d in s.groups;
  }

  /** An idle reader has no waiter of its own. */
  lemma NobodyThere(s: State, c: string, r: string)
    requires WaitersOk(s) && Seated(s, c, r) && ReaderOk(s.waiters, c, r, s.groups[c].readers[r])
    requires IdleReader(s.groups[c].readers[r])
    ensures forall w :: w in s.waiters && (s.waiters[w].phase.Queued? || s.waiters[w].phase.Running?) ==>
              s.waiters[w].cid != c || s.waiters[w].rid != r
  {
    TallyAtLeast(s.waiters, ReaderActive(c, r));
  }

  lemma RetireGroupHistory(s: State, c: string, at: int)
    requires HistoryOk(s.budget, s.lru, s.groups) && c in s.groups && s.groups[c].estimate >= MILLISECOND && s.groups[c].clock >= 0
    ensures var s' := RetireGroup(s, c, at); HistoryOk(s'.budget, s'.lru, s'.groups)
  {
    hide Remember, HistoryOk;
    var s' := RetireGroup(s, c, at);
    RememberKeeps(s.budget, s.lru, s.groups[c].discardHistory, History(HistoryKey(c, ""),
      s.groups[c].service, s.groups[c].estimate, s.groups[c].clock, at), s.groups, s'.groups);
  }

  lemma RetireGroupWaiters(s: State, c: string, at: int)
    requires WaitersOk(s) && c in s.groups && IdleGroup(s.groups[c]) && GroupOk(s.waiters, c, s.groups[c])
    ensures WaitersOk(RetireGroup(s, c, at))
  {
    hide Tally, Remember;
    TallyAtLeast(s.waiters, GroupActive(c));
    TallyAtLeast(s.waiters, GroupWaiting(c));
    hide GroupOk;
    var s' := RetireGroup(s, c, at);
    assert forall d, q :: Seated(s, d, q) && d != c ==> Seated(s', d, q) && s'.groups[d] == s.groups[d];
  }

  lemma RetireGroupKeeps(s: State, c: string, at: int)
    requires Core(s) && c in s.groups && IdleGroup(s.groups[c])
    ensures Core(RetireGroup(s, c, at))
  {
    hide Tally, Remember, HistoryOk, ReaderOk, TurnsUpTo, WaitersOk;
    assert GroupOk(s.waiters, c, s.groups[c]);
    RetireGroupHistory(s, c, at);
    RetireGroupWaiters(s, c, at);
    hide GroupOk;
    var s' := RetireGroup(s, c, at);
    assert ReadyGroups(s'.groups) == ReadyGroups(s.groups);
  }

  /** An idle group has only idle readers. */
  lemma IdleGroupIsEmpty(s: State, c: string, r: string)
    requires WaitersOk(s) && GroupsOk(s) && Seated(s, c, r) && IdleGroup(s.groups[c])
    ensures IdleReader(s.groups[c].readers[r])
  {
    hide Tally, GroupsOk, WaitersOk, ReaderOk, GroupOk, Weigh;
    SeatOk(s, c, r);
    ReadersWithinGroup(s.waiters, c, r);
    TallyAtLeast(s.waiters, ReaderActive(c, r));
    IdleCounts(s.waiters, c, r, s.groups[c], s.groups[c].readers[r]);
  }

  lemma SeatOk(s: State, c: string, r: string)
    requires WaitersOk(s) && GroupsOk(s) && Seated(s, c, r)
    ensures ReaderOk(s.waiters, c, r, s.groups[c].readers[r]) && GroupOk(s.waiters, c, s.groups[c]) && ChargesPositive(s.waiters)
  {
    hide ReaderOk, GroupOk;
  }

  lemma ReadersWithinGroup(ws: map<Wid, Waiter>, c: string, r: string)
    ensures Tally(ws, ReaderWaiting(c, r)) <= Tally(ws, GroupWaiting(c)) && Tally(ws, ReaderActive(c, r)) <= Tally(ws, GroupActive(c))
  {
    hide Tally;
    TallyMonotone(ws, ReaderWaiting(c, r), GroupWaiting(c));
    TallyMonotone(ws, ReaderActive(c, r), GroupActive(c));
  }

  lemma IdleCounts(ws: map<Wid, Waiter>, c: string, r: string, g: Group, rd: Reader)
    requires ReaderOk(ws, c, r, rd) && GroupOk(ws, c, g) && IdleGroup(g) && Tally(ws, ReaderActive(c, r)) >= 0
    requires Tally(ws, ReaderWaiting(c, r)) <= Tally(ws, GroupWaiting(c)) && Tally(ws, ReaderActive(c, r)) <= Tally(ws, GroupActive(c))
    ensures IdleReader(rd)
  {
    hide Tally, QueueOk;
  }

  lemma TidyKeeps(s: State, c: string, r: string, env: Env)
    requires Core(s) && Seated(s, c, r) && NoIdleBut(s, c, r)
    ensures Settled(Tidy(s, c, r, env))
  {
    hide Tally, WaitersOk, GroupsOk, HistoryOk, OrdersOk, Counters, Remember;
    var s1 := if IdleReader(s.groups[c].readers[r]) then RetireReader(s, c, r, env.at(HistoryKey(c, r))) else s;
    if IdleReader(s.groups[c].readers[r]) {
      RetireReaderKeeps(s, c, r, env.at(HistoryKey(c, r)));
    }
    assert forall d, q :: Seated(s1, d, q) ==> !IdleReader(s1.groups[d].readers[q]);
    if IdleGroup(s1.groups[c]) {
      RetireGroupKeeps(s1, c, env.at(HistoryKey(c, "")));
    }
  }

  // ---------- Changing one waiter, its reader and its group ----------

  /** `s'` is `s` after waiter `w` of reader `r` in community `c` became `x`. */
  ghost predicate Touches(s: State, s': State, w: Wid, x: Waiter) {
    Seated(s, x.cid, x.rid) && Seated(s', x.cid, x.rid)
    && (w in s.waiters ==> s.waiters[w].cid == x.cid && s.waiters[w].rid == x.rid)
    && s'.waiters == s.waiters[w := x]
    && s'.groups == s.groups[x.cid := s'.groups[x.cid]]
    && s'.groups[x.cid].readers == s.groups[x.cid].readers[x.rid := s'.groups[x.cid].readers[x.rid]]
  }

  lemma TouchedWaiters(s: State, s': State, w: Wid, x: Waiter)
    requires WaitersOk(s) && Touches(s, s', w, x)
    requires forall v :: v in s.groups[x.cid].readers[x.rid].queue && v != w ==> v in s'.groups[x.cid].readers[x.rid].queue
    requires x.phase.Queued? ==> !x.closed && w in s'.groups[x.cid].readers[x.rid].queue
    requires x.phase.Running? ==> x.closed && x.phase.charged >= MILLISECOND && x.phase.readerCharged >= MILLISECOND
    ensures WaitersOk(s')
  {
    assert forall d, q :: Seated(s, d, q) ==> Seated(s', d, q);
  }

  /** A waiter weighs nothing in another reader's tallies. */
  lemma OtherTallies(ws: map<Wid, Waiter>, w: Wid, x: Waiter, d: string, q: string)
    requires w in ws ==> ws[w].cid == x.cid && ws[w].rid == x.rid
    requires d != x.cid || q != x.rid
    ensures Tally(ws[w := x], ReaderWaiting(d, q)) == Tally(ws, ReaderWaiting(d, q))
    ensures Tally(ws[w := x], ReaderActive(d, q)) == Tally(ws, ReaderActive(d, q))
    ensures Tally(ws[w := x], ReaderCharge(d, q)) == Tally(ws, ReaderCharge(d, q))
  {
    hide Tally;
    TallyUpdate(ws, w, x);
  }

  lemma OtherReader(s: State, s': State, w: Wid, x: Waiter, d: string, q: string)
    requires GroupsOk(s) && Touches(s, s', w, x) && Seated(s', d, q) && (d != x.cid || q != x.rid)
    ensures ReaderOk(s'.waiters, d, q, s'.groups[d].readers[q])
  {
    hide Tally, Weigh, GroupOk;
    assert s'.groups[d].readers[q] == s.groups[d].readers[q];
    assert ReaderOk(s.waiters, d, q, s.groups[d].readers[q]);
    OtherTallies(s.waiters, w, x, d, q);
  }

  lemma TouchedGroups(s: State, s': State, w: Wid, x: Waiter)
    requires GroupsOk(s) && Touches(s, s', w, x)
    requires GroupOk(s'.waiters, x.cid, s'.groups[x.cid])
    requires ReaderOk(s'.waiters, x.cid, x.rid, s'.groups[x.cid].readers[x.rid])
    ensures GroupsOk(s')
  {
    hide Tally, ReaderOk;
    forall d, q | Seated(s', d, q) ensures ReaderOk(s'.waiters, d, q, s'.groups[d].readers[q]) {
      if d != x.cid || q != x.rid { OtherReader(s, s', w, x, d, q); }
    }
    forall d | d in s'.groups ensures GroupOk(s'.waiters, d, s'.groups[d]) {
      if d != x.cid {
        assert GroupOk(s.waiters, d, s.groups[d]);
        TallyUpdate(s.waiters, w, x);
      }
    }
  }

  lemma TurnsAfter(keys: map<string, Key>, keys': map<string, Key>, a: string, order: int, order': int)
    requires TurnsUpTo(keys, order) && order <= order'
    requires forall b :: b in keys' && b != a ==> b in keys && keys'[b].order == keys[b].order
    requires a in keys' ==> (a in keys && keys'[a].order == keys[a].order) || order < keys'[a].order <= order'
    ensures TurnsUpTo(keys', order')
  {
  }

  lemma TouchedOrders(s: State, s': State, w: Wid, x: Waiter)
    requires OrdersOk(s) && Touches(s, s', w, x) && s'.order >= s.order
    requires var g, g' := s.groups[x.cid], s'.groups[x.cid];
             g'.waiting <= 0 || (g.waiting > 0 && g'.order == g.order) || s.order < g'.order <= s'.order
    requires var rd, rd' := s.groups[x.cid].readers[x.rid], s'.groups[x.cid].readers[x.rid];
             rd'.queue == [] || (rd.queue != [] && rd'.order == rd.order) || s.order < rd'.order <= s'.order
    ensures OrdersOk(s')
  {
    hide TurnsUpTo;
    TurnsAfter(ReadyGroups(s.groups), ReadyGroups(s'.groups), x.cid, s.order, s'.order);
    forall d | d in s'.groups ensures TurnsUpTo(ReadyReaders(s'.groups[d]), s'.order) {
      if d == x.cid {
        TurnsAfter(ReadyReaders(s.groups[d]), ReadyReaders(s'.groups[d]), x.rid, s.order, s'.order);
      } else {
        TurnsLater(ReadyReaders(s.groups[d]), s.order, s'.order);
      }
    }
  }

  lemma TurnsLater(keys: map<string, Key>, order: int, order': int)
    requires TurnsUpTo(keys, order) && order <= order'
    ensures TurnsUpTo(keys, order')
  {
  }

  lemma TouchedHistory(s: State, s': State, w: Wid, x: Waiter)
    requires HistoryOk(s.budget, s.lru, s.groups) && Touches(s, s', w, x)
    ensures HistoryOk(s.budget, s.lru, s'.groups)
  {
    assert forall k :: Present(s'.groups, k) <==> Present(s.groups, k);
  }

  lemma TouchedIdle(s: State, s': State, w: Wid, x: Waiter)
    requires NoIdleBut(s, x.cid, x.rid) && Touches(s, s', w, x)
    ensures NoIdleBut(s', x.cid, x.rid)
  {
  }

  // ---------- Leaving, starting and finishing ----------

  predicate Leaving(p: Phase) { p.Rejected? || p.Expired? || p.Cancelled? }

  /** A reader after a waiter of its queue leaves, and one after a waiter of its stops running. */
  lemma ReaderLeft(ws: map<Wid, Waiter>, w: Wid, x: Waiter, rd: Reader)
    requires ReaderOk(ws, x.cid, x.rid, rd) && w in rd.queue && Leaving(x.phase)
    ensures ReaderOk(ws[w := x], x.cid, x.rid, rd.(queue := Without(rd.queue, w)))
  {
    hide Tally;
    WithoutKeeps(rd.queue, w);
    TallyUpdate(ws, w, x);
  }

  lemma GroupLeft(ws: map<Wid, Waiter>, w: Wid, x: Waiter, g: Group)
    requires GroupOk(ws, x.cid, g) && w in ws && ws[w].cid == x.cid && ws[w].phase.Queued? && Leaving(x.phase)
    ensures GroupOk(ws[w := x], x.cid, g.(waiting := g.waiting - 1))
  {
    hide Tally;
    TallyUpdate(ws, w, x);
  }

  lemma DequeueSeat(s: State, w: Wid, p: Phase, close: bool)
    requires GroupsOk(s) && InQueue(s, w) && Leaving(p)
    ensures var s', x := Dequeue(s, w, p, close), s.waiters[w];
            GroupOk(s'.waiters, x.cid, s'.groups[x.cid])
            && ReaderOk(s'.waiters, x.cid, x.rid, s'.groups[x.cid].readers[x.rid])
  {
    var x := s.waiters[w].(phase := p, closed := close);
    var rd := s.groups[x.cid].readers[x.rid];
    assert ReaderOk(s.waiters, x.cid, x.rid, rd) && GroupOk(s.waiters, x.cid, s.groups[x.cid]);
    hide Tally, GroupsOk, QueueOk, Without;
    ReaderLeft(s.waiters, w, x, rd);
    GroupLeft(s.waiters, w, x, s.groups[x.cid]);
  }

  lemma DequeueKeeps(s: State, w: Wid, p: Phase, close: bool)
    requires Core(s) && InQueue(s, w) && Leaving(p)
    ensures Core(Dequeue(s, w, p, close))
    ensures Touches(s, Dequeue(s, w, p, close), w, s.waiters[w].(phase := p, closed := close))
  {
    hide Tally, WaitersOk, HistoryOk, OrdersOk, GroupsOk;
    var s' := Dequeue(s, w, p, close);
    var x := s.waiters[w].(phase := p, closed := close);
    DequeueSeat(s, w, p, close);
    TallyUpdate(s.waiters, w, x);
    QueueDistinct(s, x.cid, x.rid);
    WithoutKeeps(s.groups[x.cid].readers[x.rid].queue, w);
    hide ReaderOk, GroupOk;
    TouchedWaiters(s, s', w, x);
    TouchedGroups(s, s', w, x);
    QueuedCounts(s, w);
    TouchedOrders(s, s', w, x);
    TouchedHistory(s, s', w, x);
  }

  lemma QueueDistinct(s: State, c: string, r: string)
    requires GroupsOk(s) && Seated(s, c, r)
    ensures Distinct(s.groups[c].readers[r].queue)
    ensures forall w :: w in s.groups[c].readers[r].queue ==> w in s.waiters && s.waiters[w].phase.Queued?
  {
    hide Tally;
    assert ReaderOk(s.waiters, c, r, s.groups[c].readers[r]);
  }

  lemma QueuedCounts(s: State, w: Wid)
    requires WaitersOk(s) && GroupsOk(s) && InQueue(s, w)
    ensures s.groups[s.waiters[w].cid].waiting > 0
  {
    hide Tally;
    TallyAtLeast(s.waiters, GroupWaiting(s.waiters[w].cid));
  }

  lemma ReaderStarted(ws: map<Wid, Waiter>, w: Wid, x: Waiter, rd: Reader)
    requires ReaderOk(ws, x.cid, x.rid, rd) && rd.queue != [] && w == rd.queue[0]
    requires x.phase.Running? && x.phase.readerCharged == rd.estimate
    ensures ReaderOk(ws[w := x], x.cid, x.rid,
                     rd.(queue := rd.queue[1..], service := rd.service + rd.estimate, active := rd.active + 1))
  {
    hide Tally;
    assert w in rd.queue && w !in rd.queue[1..];
    TallyUpdate(ws, w, x);
  }

  lemma GroupStarted(ws: map<Wid, Waiter>, w: Wid, x: Waiter, g: Group, clock: int)
    requires GroupOk(ws, x.cid, g) && w in ws && ws[w].cid == x.cid && ws[w].phase.Queued?
    requires x.phase.Running? && x.phase.charged == g.estimate && clock >= g.clock
    ensures GroupOk(ws[w := x], x.cid,
                    g.(waiting := g.waiting - 1, clock := clock, service := g.service + g.estimate, active := g.active + 1))
  {
    hide Tally;
    TallyUpdate(ws, w, x);
  }

  lemma StartSeat(s: State, c: string, r: string)
    requires GroupsOk(s) && CanPop(s, c, r)
    ensures var s' := Start(s, c, r);
            GroupOk(s'.waiters, c, s'.groups[c]) && ReaderOk(s'.waiters, c, r, s'.groups[c].readers[r])
  {
    var rd := s.groups[c].readers[r];
    var x := s.waiters[rd.queue[0]].(phase := Running(s.groups[c].estimate, rd.estimate), closed := true);
    assert ReaderOk(s.waiters, c, r, rd) && GroupOk(s.waiters, c, s.groups[c]);
    hide Tally, GroupsOk, QueueOk;
    ReaderStarted(s.waiters, rd.queue[0], x, rd);
    GroupStarted(s.waiters, rd.queue[0], x, s.groups[c], Max(s.groups[c].clock, rd.service));
  }

  lemma StartKeeps(s: State, c: string, r: string)
    requires Core(s) && CanPop(s, c, r) && s.active < s.budget.workers
    ensures Core(Start(s, c, r))
    ensures var w := s.groups[c].readers[r].queue[0];
            Touches(s, Start(s, c, r), w, Start(s, c, r).waiters[w])
  {
    hide Tally, WaitersOk, HistoryOk, OrdersOk, GroupsOk;
    var s' := Start(s, c, r);
    var w := s.groups[c].readers[r].queue[0];
    var x := s'.waiters[w];
    TallyUpdate(s.waiters, w, x);
    StartSeat(s, c, r);
    Charges(s, c, r);
    hide ReaderOk, GroupOk;
    TouchedWaiters(s, s', w, x);
    TouchedGroups(s, s', w, x);
    QueuedCounts(s, w);
    TouchedOrders(s, s', w, x);
    TouchedHistory(s, s', w, x);
  }

  lemma Charges(s: State, c: string, r: string)
    requires GroupsOk(s) && Seated(s, c, r)
    ensures s.groups[c].estimate >= MILLISECOND && s.groups[c].readers[r].estimate >= MILLISECOND
  {
    hide Tally;
    assert ReaderOk(s.waiters, c, r, s.groups[c].readers[r]);
  }

  /** With nothing negative about its charge, service after settling covers what still runs. */
  lemma ReaderFinished(ws: map<Wid, Waiter>, w: Wid, x: Waiter, rd: Reader, rd': Reader, duration: int, clock: int)
    requires ReaderOk(ws, x.cid, x.rid, rd) && ChargesPositive(ws) && duration >= MILLISECOND
    requires w in ws && ws[w].cid == x.cid && ws[w].rid == x.rid && ws[w].phase.Running? && x.phase.Completed?
    requires rd' == rd.(service := Settle(rd.service, duration, ws[w].phase.readerCharged, clock),
                        estimate := (rd.estimate * 3 + duration) / 4, active := rd.active - 1)
    ensures ReaderOk(ws[w := x], x.cid, x.rid, rd')
  {
    hide Tally;
    TallyAtLeast(ws, ReaderCharge(x.cid, x.rid));
    TallyUpdate(ws, w, x);
  }

  lemma GroupFinished(ws: map<Wid, Waiter>, w: Wid, x: Waiter, g: Group, g': Group, duration: int, clock: int)
    requires GroupOk(ws, x.cid, g) && ChargesPositive(ws) && duration >= MILLISECOND
    requires w in ws && ws[w].cid == x.cid && ws[w].phase.Running? && x.phase.Completed?
    requires g' == g.(service := Settle(g.service, duration, ws[w].phase.charged, clock),
                      estimate := (g.estimate * 3 + duration) / 4, active := g.active - 1, readers := g'.readers)
    ensures GroupOk(ws[w := x], x.cid, g')
  {
    hide Tally;
    TallyAtLeast(ws, GroupCharge(x.cid));
    TallyUpdate(ws, w, x);
  }

  lemma CompleteSeat(s: State, w: Wid, elapsed: int)
    requires ChargesPositive(s.waiters) && GroupsOk(s) && IsRunning(s, w)
    ensures var s', x := Complete(s, w, elapsed), s.waiters[w];
            GroupOk(s'.waiters, x.cid, s'.groups[x.cid])
            && ReaderOk(s'.waiters, x.cid, x.rid, s'.groups[x.cid].readers[x.rid])
  {
    var x := s.waiters[w].(phase := Completed);
    var g, g' := s.groups[x.cid], Complete(s, w, elapsed).groups[x.cid];
    assert ReaderOk(s.waiters, x.cid, x.rid, g.readers[x.rid]) && GroupOk(s.waiters, x.cid, g);
    hide Tally, GroupsOk, QueueOk, Settle, ReaderOk, GroupOk;
    ReaderFinished(s.waiters, w, x, g.readers[x.rid], g'.readers[x.rid], Max(MILLISECOND, elapsed), g.clock);
    GroupFinished(s.waiters, w, x, g, g', Max(MILLISECOND, elapsed), s.clock);
  }

  lemma CompleteKeeps(s: State, w: Wid, elapsed: int)
    requires Core(s) && IsRunning(s, w)
    ensures Core(Complete(s, w, elapsed))
    ensures Touches(s, Complete(s, w, elapsed), w, s.waiters[w].(phase := Completed))
  {
    hide Tally, HistoryOk, OrdersOk, GroupsOk;
    var s' := Complete(s, w, elapsed);
    var x := s.waiters[w].(phase := Completed);
    CompleteSeat(s, w, elapsed);
    hide WaitersOk;
    TallyUpdate(s.waiters, w, x);
    QueueDistinct(s, x.cid, x.rid);
    hide ReaderOk, GroupOk;
    TouchedWaiters(s, s', w, x);
    TouchedGroups(s, s', w, x);
    TouchedOrders(s, s', w, x);
    TouchedHistory(s, s', w, x);
  }

  // ---------- Dispatching ----------

  /** Only the turns of this group and of this reader differ. */
  ghost predicate OnlyTurns(s: State, s': State, c: string, r: string) {
    Seated(s, c, r) && Seated(s', c, r)
    && s'.groups == s.groups[c := s'.groups[c]]
    && s'.groups[c] == s.groups[c].(order := s'.groups[c].order, readers := s'.groups[c].readers)
    && s'.groups[c].readers == s.groups[c].readers[r := s'.groups[c].readers[r]]
    && s'.groups[c].readers[r] == s.groups[c].readers[r].(order := s'.groups[c].readers[r].order)
  }

  lemma OnlyTurnsKeeps(s: State, s': State, c: string, r: string)
    requires WaitersOk(s) && GroupsOk(s) && OnlyTurns(s, s', c, r) && s'.waiters == s.waiters
    ensures WaitersOk(s') && GroupsOk(s')
  {
    hide Tally, GroupsOk;
    assert forall d, q :: Seated(s', d, q) <==> Seated(s, d, q);
    assert forall d, q :: Seated(s, d, q) ==> s'.groups[d].readers[q].queue == s.groups[d].readers[q].queue;
    hide WaitersOk;
    assert GroupsOk(s') by { OnlyTurnsGroups(s, s', c, r); }
  }

  lemma OnlyTurnsGroups(s: State, s': State, c: string, r: string)
    requires GroupsOk(s) && OnlyTurns(s, s', c, r) && s'.waiters == s.waiters
    ensures GroupsOk(s')
  {
    hide Tally, QueueOk;
    forall d, q | Seated(s', d, q) ensures ReaderOk(s'.waiters, d, q, s'.groups[d].readers[q]) {
      assert ReaderOk(s.waiters, d, q, s.groups[d].readers[q]);
    }
  }

  lemma NextTurnOrders(s: State, c: string, r: string)
    requires OrdersOk(s) && Seated(s, c, r)
    ensures OrdersOk(NextTurn(s, c, r))
  {
    hide TurnsUpTo;
    var s' := NextTurn(s, c, r);
    TurnsAfter(ReadyGroups(s.groups), ReadyGroups(s'.groups), c, s.order, s'.order);
    forall d | d in s'.groups ensures TurnsUpTo(ReadyReaders(s'.groups[d]), s'.order) {
      TurnsAfter(ReadyReaders(s.groups[d]), ReadyReaders(s'.groups[d]), r, s.order, s'.order);
    }
  }

  lemma NextTurnIsTurns(s: State, c: string, r: string)
    requires Seated(s, c, r)
    ensures OnlyTurns(s, NextTurn(s, c, r), c, r)
  {
  }

  lemma OnlyTurnsIdle(s: State, s': State, c: string, r: string)
    requires OnlyTurns(s, s', c, r)
    ensures NoIdleBut(s, c, r) ==> NoIdleBut(s', c, r)
    ensures forall k :: Present(s'.groups, k) ==> Present(s.groups, k)
  {
  }

  lemma NextTurnKeeps(s: State, c: string, r: string)
    requires Core(s) && Seated(s, c, r)
    ensures Core(NextTurn(s, c, r)) && OnlyTurns(s, NextTurn(s, c, r), c, r)
    ensures NoIdleBut(s, c, r) ==> NoIdleBut(NextTurn(s, c, r), c, r)
  {
    hide Tally, HistoryOk, OrdersOk, WaitersOk, GroupsOk, OnlyTurns, NoIdleBut, Present;
    var s' := NextTurn(s, c, r);
    NextTurnIsTurns(s, c, r);
    OnlyTurnsKeeps(s, s', c, r);
    OnlyTurnsIdle(s, s', c, r);
    NextTurnOrders(s, c, r);
    SamePresence(s.budget, s.lru, s.groups, s'.groups);
  }

  lemma SamePresence(b: Budget, lru: seq<History>, groups: map<string, Group>, groups': map<string, Group>)
    requires HistoryOk(b, lru, groups)
    requires forall k :: Present(groups', k) ==> Present(groups, k)
    ensures HistoryOk(b, lru, groups')
  {
  }

  lemma ServeKeeps(s: State, c: string, r: string, env: Env)
    requires Core(s) && NoIdleBut(s, c, r) && CanPop(s, c, r) && s.active < s.budget.workers
    ensures var s' := Serve(s, c, r, env); Core(s') && Seated(s', c, r) && NoIdleBut(s', c, r)
  {
    hide Core;
    var w := s.groups[c].readers[r].queue[0];
    match env.fate(w)
    case Go =>
      StartKeeps(s, c, r);
      TouchedIdle(s, Start(s, c, r), w, Start(s, c, r).waiters[w]);
    case ContextDone =>
      DequeueKeeps(s, w, Cancelled, true);
      TouchedIdle(s, Dequeue(s, w, Cancelled, true), w, s.waiters[w].(phase := Cancelled, closed := true));
    case PastDeadline =>
      DequeueKeeps(s, w, Expired, true);
      TouchedIdle(s, Dequeue(s, w, Expired, true), w, s.waiters[w].(phase := Expired, closed := true));
  }

  lemma PopKeeps(s: State, c: string, r: string, env: Env)
    requires Settled(s) && CanPop(s, c, r) && s.active < s.budget.workers
    ensures Settled(Pop(s, c, r, env)) && Pop(s, c, r, env).waiting == s.waiting - 1
  {
    hide Core;
    ServeKeeps(s, c, r, env);
    NextTurnKeeps(Serve(s, c, r, env), c, r);
    TidyKeeps(NextTurn(Serve(s, c, r, env), c, r), c, r, env);
  }

  /** Work waiting anywhere waits in a ready group, and in a ready reader of it. */
  lemma WaitingIsReady(s: State)
    requires Core(s) && s.waiting > 0
    ensures ReadyGroups(s.groups) != map[]
  {
    hide Tally, Weigh, HistoryOk, OrdersOk;
    var w := TallyWitness(s.waiters, WaitingCount);
    assert s.waiters[w].phase.Queued? by { WeighsQueued(s.waiters[w]); }
    QueuedCounts(s, w);
    assert s.waiters[w].cid in ReadyGroups(s.groups);
  }

  lemma WeighsQueued(x: Waiter)
    ensures Weigh(WaitingCount, x) > 0 ==> x.phase.Queued?
    ensures forall c :: Weigh(GroupWaiting(c), x) > 0 ==> x.phase.Queued? && x.cid == c
  {
  }

  lemma ReadyGroupHasReader(s: State, c: string)
    requires Core(s) && c in ReadyGroups(s.groups)
    ensures ReadyReaders(s.groups[c]) != map[]
  {
    hide Tally, Weigh, HistoryOk, OrdersOk;
    assert GroupOk(s.waiters, c, s.groups[c]);
    var w := TallyWitness(s.waiters, GroupWaiting(c));
    WeighsQueued(s.waiters[w]);
    assert InQueue(s, w);
    assert s.waiters[w].rid in ReadyReaders(s.groups[c]);
  }

  lemma ReadyCanPop(s: State, c: string, r: string)
    requires Core(s) && c in ReadyGroups(s.groups) && r in ReadyReaders(s.groups[c])
    ensures CanPop(s, c, r)
  {
    hide Tally, HistoryOk, OrdersOk;
    assert ReaderOk(s.waiters, c, r, s.groups[c].readers[r]);
    assert s.groups[c].readers[r].queue[0] in s.groups[c].readers[r].queue;
  }

  /** The community whose turn it is, and the reader whose turn it is within it. */
  ghost function NextGroup(s: State): (c: string)
    requires Core(s) && ReadyGroups(s.groups) != map[]
    ensures IsLeast(ReadyGroups(s.groups), c)
  {
    Least(ReadyGroups(s.groups))
  }

  ghost function NextReader(s: State, c: string): (r: string)
    requires Core(s) && c in ReadyGroups(s.groups)
    ensures IsLeast(ReadyReaders(s.groups[c]), r) && CanPop(s, c, r)
  {
    ReadyGroupHasReader(s, c);
    var r := Least(ReadyReaders(s.groups[c]));
    ReadyCanPop(s, c, r);
    r
  }

  predicate CanDispatch(s: State) {
    s.active < s.budget.workers && ReadyGroups(s.groups) != map[]
  }

  ghost function DispatchOne(s: State, env: Env): (s': State)
    requires Settled(s) && CanDispatch(s)
    ensures Settled(s') && s'.waiting == s.waiting - 1
  {
    var c := NextGroup(s);
    var r := NextReader(s, c);
    PopKeeps(s, c, r, env);
    Pop(s, c, r, env)
  }

  /** Fill free workers from the ready groups, in turn. */
  ghost function Dispatch(s: State, env: Env): (s': State)
    requires Settled(s)
    ensures Inv(s')
    decreases s.waiting
  {
    if CanDispatch(s) then
      ReadyMeansWaiting(s);
      Dispatch(DispatchOne(s, env), env)
    else
      IdleMeansSaturated(s);
      s
  }

  lemma ReadyMeansWaiting(s: State)
    requires Core(s) && ReadyGroups(s.groups) != map[]
    ensures s.waiting > 0
  {
    hide Tally, HistoryOk, OrdersOk;
    var c :| c in ReadyGroups(s.groups);
    assert GroupOk(s.waiters, c, s.groups[c]);
    TallyMonotone(s.waiters, GroupWaiting(c), WaitingCount);
  }

  lemma IdleMeansSaturated(s: State)
    requires Core(s) && !CanDispatch(s)
    ensures Saturated(s)
  {
    hide Tally, HistoryOk, OrdersOk, GroupsOk, WaitersOk;
    if s.waiting > 0 { WaitingIsReady(s); }
  }
}

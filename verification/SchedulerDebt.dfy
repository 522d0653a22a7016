/** Service debt across idle times: what a community or reader owes when it leaves is kept, and
  given back when it returns within the minute, exactly unless the list was crowded meanwhile.

  A key names a community, or one of its readers; both levels are treated alike.
 */
module SchedulerDebt {
  import opened SchedulerState
  import opened SchedulerSteps
  import opened SchedulerInvariant
  import opened SchedulerEvents
  import opened SchedulerRuns
  import opened SchedulerTheorems
  import opened DebtRecord

  // ---------- What a key owes ----------

  /** Service beyond the charges of work still running. */
  ghost function Owes(s: State, key: HistoryKey): int
    requires Present(s.groups, key)
  {
    if key.reader == "" then Credit(s, key.community) else ReaderCredit(s, key.community, key.reader)
  }

  ghost function WorkedFor(s: State, e: Event, key: HistoryKey): nat {
    if key.reader == "" then Worked(s, e, key.community) else WorkedBy(s, e, key.community, key.reader)
  }

  /** Its community was deleted while it still had work running, so it leaves nothing behind. */
  predicate Discards(s: State, key: HistoryKey) {
    key.community in s.groups && s.groups[key.community].discardHistory
  }

  /** Touch `i` kept at least this much for the key, and nothing befell it since. */
  ghost predicate KeptAt(touches: seq<Touch>, key: HistoryKey, i: nat, least: int) {
    i < |touches| && touches[i].Kept? && touches[i].h.key == key && touches[i].h.service >= least
    && Untouched(touches, i + 1, key)
  }

  ghost predicate KeptSince(touches: seq<Touch>, key: HistoryKey, since: nat, least: int) {
    exists i :: since <= i < |touches| && KeptAt(touches, key, i, least)
  }

  /** The list is what its record comes to. */
  ghost predicate Recorded(s: State) { s.lru == Replay(s.budget, s.touches) }

  /** From `s` to `s'` the key stays and owes no less than before and `gain` more, or leaves with
      that kept; and if it was away it stays away untouched. */
  ghost predicate Carries(s: State, s': State, key: HistoryKey, gain: int) {
    s'.budget == s.budget && s.touches <= s'.touches && (Recorded(s) ==> Recorded(s'))
    && (Discards(s', key) ==> Discards(s, key))
    && if !Present(s.groups, key) then !Present(s'.groups, key) && Untouched(s'.touches, |s.touches|, key)
       else if Present(s'.groups, key) then Owes(s', key) >= Owes(s, key) + gain
       else Discards(s, key) || KeptSince(s'.touches, key, |s.touches|, Owes(s, key) + gain)
  }

  lemma CarriesThen(s: State, m: State, s': State, key: HistoryKey, a: int, b: int)
    requires Carries(s, m, key, a) && Carries(m, s', key, b) && (!Present(m.groups, key) ==> b == 0)
    ensures Carries(s, s', key, a + b)
  {
    hide Owes, Present, Discards, Recorded;
    if Present(s.groups, key) && !Discards(s, key) && !Present(s'.groups, key) {
      if Present(m.groups, key) {
        LessKept(s'.touches, key, |m.touches|, Owes(m, key) + b, |s.touches|, Owes(s, key) + a + b);
      } else {
        KeptOn(m.touches, s'.touches, key, |s.touches|, Owes(s, key) + a);
      }
    } else if !Present(s.groups, key) {
      UntouchedOn(m.touches, s'.touches, key, |s.touches|);
    }
  }

  lemma LessKept(touches: seq<Touch>, key: HistoryKey, since: nat, least: int, from: nat, less: int)
    requires KeptSince(touches, key, since, least) && from <= since && less <= least
    ensures KeptSince(touches, key, from, less)
  {
    var i :| since <= i < |touches| && KeptAt(touches, key, i, least);
    assert KeptAt(touches, key, i, less);
  }

  lemma KeptOn(touches: seq<Touch>, more: seq<Touch>, key: HistoryKey, since: nat, least: int)
    requires KeptSince(touches, key, since, least) && touches <= more && Untouched(more, |touches|, key)
    ensures KeptSince(more, key, since, least)
  {
    hide Touching;
    var i :| since <= i < |touches| && KeptAt(touches, key, i, least);
    UntouchedOn(touches, more, key, i + 1);
    assert more[i] == touches[i];
    assert KeptAt(more, key, i, least);
  }

  lemma UntouchedOn(touches: seq<Touch>, more: seq<Touch>, key: HistoryKey, since: nat)
    requires Untouched(touches, since, key) && touches <= more && Untouched(more, |touches|, key)
    ensures Untouched(more, since, key)
  {
    hide Touching;
    forall j | since <= j < |more| ensures !Touching(more[j], key) {
      if j < |touches| { assert more[j] == touches[j]; }
    }
  }

  // ---------- Steps that nobody leaves by ----------

  lemma OnwardOwes(s: State, s': State, key: HistoryKey)
    requires Onward(s, s') && Present(s.groups, key) && Present(s'.groups, key)
    ensures Owes(s', key) >= Owes(s, key)
  {
    hide Credit, ReaderCredit, AllLived, Standing, Starts;
    assert key.reader != "" ==> Seated(s, key.community, key.reader) && Seated(s', key.community, key.reader);
  }

  /** The same groups and readers, and the same record. */
  ghost predicate SamePlaces(s: State, s': State) {
    s'.budget == s.budget && s'.touches == s.touches && s'.lru == s.lru && s'.groups.Keys == s.groups.Keys
    && (forall c :: c in s.groups ==> s'.groups[c].readers.Keys == s.groups[c].readers.Keys
                                      && s'.groups[c].discardHistory == s.groups[c].discardHistory)
  }

  lemma SamePlacesCarry(s: State, s': State, key: HistoryKey, gain: int)
    requires SamePlaces(s, s') && (Present(s.groups, key) && Present(s'.groups, key) ==> Owes(s', key) >= Owes(s, key) + gain)
    ensures Carries(s, s', key, gain)
  {
    hide Owes, Replay;
  }

  lemma SamePlacesOnward(s: State, s': State, key: HistoryKey)
    requires SamePlaces(s, s') && Onward(s, s')
    ensures Carries(s, s', key, 0)
  {
    hide Owes, Onward;
    if Present(s.groups, key) && Present(s'.groups, key) { OnwardOwes(s, s', key); }
    SamePlacesCarry(s, s', key, 0);
  }

  lemma DequeueCarries(s: State, w: Wid, p: Phase, close: bool, key: HistoryKey)
    requires Core(s) && InQueue(s, w) && Leaving(p)
    ensures Carries(s, Dequeue(s, w, p, close), key, 0)
  {
    hide Core, Carries, Onward, Steady, Without;
    DequeueSteady(s, w, p, close);
    SteadyIsOnward(s, Dequeue(s, w, p, close));
    SamePlacesOnward(s, Dequeue(s, w, p, close), key);
  }

  lemma ServeCarries(s: State, c: string, r: string, env: Env, key: HistoryKey)
    requires Core(s) && CanPop(s, c, r) && s.active < s.budget.workers
    ensures Carries(s, Serve(s, c, r, env), key, 0)
  {
    hide Core, Carries, Onward, Shrinks, Dequeue;
    var w := s.groups[c].readers[r].queue[0];
    match env.fate(w)
    case Go =>
      StartOnward(s, c, r);
      SamePlacesOnward(s, Start(s, c, r), key);
    case ContextDone => DequeueCarries(s, w, Cancelled, true, key);
    case PastDeadline => DequeueCarries(s, w, Expired, true, key);
  }

  lemma NextTurnCarries(s: State, c: string, r: string, key: HistoryKey)
    requires Seated(s, c, r)
    ensures Carries(s, NextTurn(s, c, r), key, 0)
  {
    hide Carries, Onward, Steady, Shrinks;
    NextTurnSteady(s, c, r);
    SteadyIsOnward(s, NextTurn(s, c, r));
    SamePlacesOnward(s, NextTurn(s, c, r), key);
  }

  lemma CompleteCarries(s: State, w: Wid, elapsed: int, key: HistoryKey)
    requires Core(s) && IsRunning(s, w)
    ensures Carries(s, Complete(s, w, elapsed), key, WorkedFor(s, Done(w, elapsed), key))
  {
    hide Core, Carries, Onward, Shrinks, Credit, ReaderCredit, Settle;
    CompleteOnward(s, w, elapsed);
    if Present(s.groups, key) && Present(Complete(s, w, elapsed).groups, key) { OnwardOwes(s, Complete(s, w, elapsed), key); }
    SamePlacesCarry(s, Complete(s, w, elapsed), key, WorkedFor(s, Done(w, elapsed), key));
  }

  // ---------- Steps that somebody leaves by ----------

  /** Service covers all there is to owe. */
  lemma OwesWithin(s: State, key: HistoryKey)
    requires WaitersOk(s) && Present(s.groups, key)
    ensures Owes(s, key) <= if key.reader == "" then s.groups[key.community].service
                            else s.groups[key.community].readers[key.reader].service
  {
    hide Tally;
    TallyAtLeast(s.waiters, GroupCharge(key.community));
    TallyAtLeast(s.waiters, ReaderCharge(key.community, key.reader));
  }

  /** One touch is recorded, and it is the leaving of this one if of any. */
  lemma OneTouchCarries(s: State, s': State, t: Touch, key: HistoryKey)
    requires s'.budget == s.budget && s'.touches == s.touches + [t] && s'.lru == Apply(s.budget, s.lru, t)
    requires Discards(s', key) ==> Discards(s, key)
    requires if !Present(s.groups, key) then !Present(s'.groups, key) && !Touching(t, key)
             else if Present(s'.groups, key) then Owes(s', key) >= Owes(s, key)
             else Discards(s, key) || (t.Kept? && t.h.key == key && t.h.service >= Owes(s, key))
    ensures Carries(s, s', key, 0)
  {
    hide Owes, Present, Discards, Apply, Touching;
    assert s'.touches[..|s.touches|] == s.touches;
    if Present(s.groups, key) && !Present(s'.groups, key) && !Discards(s, key) {
      assert KeptAt(s'.touches, key, |s.touches|, Owes(s, key));
    }
  }

  lemma RetireReaderCarries(s: State, c: string, r: string, at: int, key: HistoryKey)
    requires WaitersOk(s) && Seated(s, c, r) && r != ""
    ensures Carries(s, RetireReader(s, c, r, at), key, 0)
  {
    hide WaitersOk, Carries, Tally, Remember, Forget;
    var s' := RetireReader(s, c, r, at);
    if key == HistoryKey(c, r) { OwesWithin(s, key); }
    DepartedIs(s.budget, s.lru, s.groups[c].discardHistory, s'.touches[|s.touches|],
               History(HistoryKey(c, r), s.groups[c].readers[r].service, s.groups[c].readers[r].estimate, 0, at));
    OneTouchCarries(s, s', s'.touches[|s.touches|], key);
  }

  lemma RetireGroupCarries(s: State, c: string, at: int, key: HistoryKey)
    requires WaitersOk(s) && c in s.groups && s.groups[c].readers == map[]
    ensures Carries(s, RetireGroup(s, c, at), key, 0)
  {
    hide WaitersOk, Carries, Tally, Remember, Forget;
    var s' := RetireGroup(s, c, at);
    if key == HistoryKey(c, "") { OwesWithin(s, key); }
    DepartedIs(s.budget, s.lru, s.groups[c].discardHistory, s'.touches[|s.touches|],
               History(HistoryKey(c, ""), s.groups[c].service, s.groups[c].estimate, s.groups[c].clock, at));
    OneTouchCarries(s, s', s'.touches[|s.touches|], key);
  }

  lemma DepartedIs(b: Budget, lru: seq<History>, discard: bool, t: Touch, h: History)
    requires t == Departed(discard, h)
    ensures Apply(b, lru, t) == Remember(b, lru, discard, h) && forall k :: Touching(t, k) <==> k == h.key
  {
    hide Forget, Trim;
  }

  lemma TidyCarries(s: State, c: string, r: string, env: Env, key: HistoryKey)
    requires Core(s) && Seated(s, c, r) && NoIdleBut(s, c, r)
    ensures Carries(s, Tidy(s, c, r, env), key, 0)
  {
    hide WaitersOk, GroupsOk, HistoryOk, OrdersOk, Counters, WithinBudget, Carries;
    NamedSeat(s, c, r);
    var s1 := if IdleReader(s.groups[c].readers[r]) then RetireReader(s, c, r, env.at(HistoryKey(c, r))) else s;
    if IdleReader(s.groups[c].readers[r]) {
      RetireReaderKeeps(s, c, r, env.at(HistoryKey(c, r)));
      RetireReaderCarries(s, c, r, env.at(HistoryKey(c, r)), key);
    } else {
      NothingCarries(s, key);
    }
    if IdleGroup(s1.groups[c]) {
      EmptyGroup(s, s1, c, r, env);
      RetireGroupCarries(s1, c, env.at(HistoryKey(c, "")), key);
      CarriesThen(s, s1, Tidy(s, c, r, env), key, 0, 0);
    }
  }

  lemma NothingCarries(s: State, key: HistoryKey)
    ensures Carries(s, s, key, 0)
  {
    hide Owes;
  }

  lemma NamedSeat(s: State, c: string, r: string)
    requires GroupsOk(s) && Seated(s, c, r)
    ensures r != ""
  {
    hide Tally;
    assert ReaderOk(s.waiters, c, r, s.groups[c].readers[r]);
  }

  /** With its last reader retired an idle group has none left. */
  lemma EmptyGroup(s: State, s1: State, c: string, r: string, env: Env)
    requires Seated(s, c, r) && NoIdleBut(s, c, r) && WaitersOk(s1) && GroupsOk(s1)
    requires s1 == (if IdleReader(s.groups[c].readers[r]) then RetireReader(s, c, r, env.at(HistoryKey(c, r))) else s)
    requires IdleGroup(s1.groups[c])
    ensures s1.groups[c].readers == map[]
  {
    hide WaitersOk, GroupsOk, Remember, RetireReader, NoIdleBut, IdleReader;
    BusyReaders(s, s1, c, r, env);
    IdleReaders(s1, c);
  }

  lemma IdleReaders(s: State, c: string)
    requires WaitersOk(s) && GroupsOk(s) && c in s.groups && IdleGroup(s.groups[c])
    ensures forall q :: q in s.groups[c].readers ==> IdleReader(s.groups[c].readers[q])
  {
    hide WaitersOk, GroupsOk;
    forall q | q in s.groups[c].readers ensures IdleReader(s.groups[c].readers[q]) {
      assert Seated(s, c, q);
      IdleGroupIsEmpty(s, c, q);
    }
  }

  lemma BusyReaders(s: State, s1: State, c: string, r: string, env: Env)
    requires Seated(s, c, r) && NoIdleBut(s, c, r)
    requires s1 == (if IdleReader(s.groups[c].readers[r]) then RetireReader(s, c, r, env.at(HistoryKey(c, r))) else s)
    ensures c in s1.groups && forall q :: q in s1.groups[c].readers ==> !IdleReader(s1.groups[c].readers[q])
  {
    hide Remember;
    assert forall q :: q in s1.groups[c].readers ==> Seated(s, c, q) && s.groups[c].readers[q] == s1.groups[c].readers[q];
  }

  // ---------- Whole critical sections ----------

  lemma LeaveCarries(s: State, w: Wid, p: Phase, close: bool, env: Env, key: HistoryKey)
    requires Settled(s) && InQueue(s, w) && Leaving(p)
    ensures Carries(s, Leave(s, w, p, close, env), key, 0)
  {
    hide Core, NoIdle, NoIdleBut, Carries, Dequeue, Tidy, Touches;
    var x := s.waiters[w].(phase := p, closed := close);
    var m := Dequeue(s, w, p, close);
    NoIdleAtAll(s, x.cid, x.rid);
    DequeueKeeps(s, w, p, close);
    TouchedIdle(s, m, w, x);
    DequeueCarries(s, w, p, close, key);
    TouchedSeat(s, m, w, x);
    TidyCarries(m, x.cid, x.rid, env, key);
    CarriesThen(s, m, Withdraw(s, w, p, close, env), key, 0, 0);
  }

  lemma TouchedSeat(s: State, s': State, w: Wid, x: Waiter)
    requires Touches(s, s', w, x)
    ensures Seated(s', x.cid, x.rid)
  {
  }

  lemma PopCarries(s: State, c: string, r: string, env: Env, key: HistoryKey)
    requires Settled(s) && CanPop(s, c, r) && s.active < s.budget.workers
    ensures Carries(s, Pop(s, c, r, env), key, 0)
  {
    hide Core, NoIdle, NoIdleBut, Carries, Serve, NextTurn, Tidy, OnlyTurns;
    var m1 := Serve(s, c, r, env);
    NoIdleAtAll(s, c, r);
    ServeKeeps(s, c, r, env);
    ServeCarries(s, c, r, env, key);
    NextTurnKeeps(m1, c, r);
    NextTurnCarries(m1, c, r, key);
    OnlyTurnsSeat(m1, NextTurn(m1, c, r), c, r);
    TidyCarries(NextTurn(m1, c, r), c, r, env, key);
    CarriesThen(s, m1, NextTurn(m1, c, r), key, 0, 0);
    CarriesThen(s, NextTurn(m1, c, r), Pop(s, c, r, env), key, 0, 0);
  }

  lemma OnlyTurnsSeat(s: State, s': State, c: string, r: string)
    requires OnlyTurns(s, s', c, r)
    ensures Seated(s', c, r)
  {
  }

  lemma {:induction false} DispatchCarries(s: State, env: Env, key: HistoryKey)
    requires Settled(s)
    ensures Carries(s, Dispatch(s, env), key, 0)
    decreases s.waiting
  {
    hide Core, NoIdle, Pop, Carries;
    if CanDispatch(s) {
      ReadyMeansWaiting(s);
      PopCarries(s, NextGroup(s), NextReader(s, NextGroup(s)), env, key);
      var m := DispatchOne(s, env);
      DispatchCarries(m, env, key);
      CarriesThen(s, m, Dispatch(m, env), key, 0, 0);
    } else {
      NothingCarries(s, key);
    }
  }

  lemma {:induction false} EvictionsCarry(s: State, c: string, r: string, bytes: nat, victims: seq<Wid>, env: Env, key: HistoryKey)
    requires Settled(s) && EvictionRun(s, c, r, bytes, victims, env)
    ensures Carries(s, AfterEvictions(s, c, r, bytes, victims, env), key, 0)
    decreases |victims|
  {
    hide Core, NoIdle, IsVictim, NoDonor, Full, Withdraw, Carries;
    if victims == [] {
      NothingCarries(s, key);
    } else {
      VictimAtHead(s, c, r, bytes, victims, env);
      LeaveCarries(s, victims[0], Rejected, true, env, key);
      var m := Leave(s, victims[0], Rejected, true, env);
      EvictionsCarry(m, c, r, bytes, victims[1..], env, key);
      CarriesThen(s, m, AfterEvictions(m, c, r, bytes, victims[1..], env), key, 0, 0);
    }
  }

  lemma {:induction false} DropsCarry(s: State, c: string, order: seq<Wid>, env: Env, key: HistoryKey)
    requires Settled(s) && DropRun(s, c, order, env)
    ensures Carries(s, AfterDrops(s, c, order, env), key, 0)
    decreases |order|
  {
    hide Core, NoIdle, Withdraw, Carries;
    if order == [] {
      NothingCarries(s, key);
    } else {
      LeaveCarries(s, order[0], Cancelled, true, env, key);
      var m := Leave(s, order[0], Cancelled, true, env);
      DropsCarry(m, c, order[1..], env, key);
      CarriesThen(s, m, AfterDrops(m, c, order[1..], env), key, 0, 0);
    }
  }

  lemma FinishCarries(s: State, w: Wid, elapsed: int, env: Env, key: HistoryKey)
    requires Settled(s) && w in s.waiters && s.waiters[w].phase.Running?
    ensures IsRunning(s, w) && Carries(s, Finish(s, w, elapsed, env), key, WorkedFor(s, Done(w, elapsed), key))
  {
    hide Core, NoIdle, NoIdleBut, Carries, Complete, Tidy, Touches, WorkedFor;
    var x := s.waiters[w].(phase := Completed);
    RunningCounts(s, w);
    var m := Complete(s, w, elapsed);
    NoIdleAtAll(s, x.cid, x.rid);
    CompleteKeeps(s, w, elapsed);
    TouchedIdle(s, m, w, x);
    TouchedSeat(s, m, w, x);
    CompleteCarries(s, w, elapsed, key);
    TidyCarries(m, x.cid, x.rid, env, key);
    CarriesThen(s, m, Finish(s, w, elapsed, env), key, WorkedFor(s, Done(w, elapsed), key), 0);
  }

  // ---------- Events and runs ----------

  /** The event seats the holder of this key. */
  predicate Brings(e: Event, key: HistoryKey) {
    e.Arrive? && e.c == key.community && (key.reader == "" || key.reader == e.r)
  }

  lemma RefuseCarries(s: State, c: string, r: string, w: Wid, bytes: nat, key: HistoryKey)
    requires w !in s.waiters
    ensures Carries(s, Refuse(s, c, r, w, bytes), key, 0)
  {
    hide Carries, Onward, Tally;
    NewWaiterSteady(s, Refuse(s, c, r, w, bytes), w, Waiter(c, r, bytes, Rejected, false));
    SteadyIsOnward(s, Refuse(s, c, r, w, bytes));
    SamePlacesOnward(s, Refuse(s, c, r, w, bytes), key);
  }

  lemma EnqueueRecords(s: State, c: string, r: string, w: Wid, bytes: nat, g0: Group, rd0: Reader)
    requires c !in s.groups ==> g0.readers == map[]
    ensures var s' := Enqueue(s, c, r, w, bytes, g0, rd0);
            s'.budget == s.budget && s.touches <= s'.touches && (Recorded(s) ==> Recorded(s'))
            && (forall j :: |s.touches| <= j < |s'.touches| ==>
                  (c !in s.groups && s'.touches[j] == Gone(HistoryKey(c, "")))
                  || (!Seated(s, c, r) && s'.touches[j] == Gone(HistoryKey(c, r))))
  {
    hide Forget, Replay;
    var one := if c in s.groups then s.touches else s.touches + [Gone(HistoryKey(c, ""))];
    ReplayOne(s.budget, s.touches, Gone(HistoryKey(c, "")));
    ReplayOne(s.budget, one, Gone(HistoryKey(c, r)));
    var s' := Enqueue(s, c, r, w, bytes, g0, rd0);
    assert s'.touches == if Seated(s, c, r) then one else one + [Gone(HistoryKey(c, r))];
    assert one[..|s.touches|] == s.touches && (|one| > |s.touches| ==> one[|s.touches|] == Gone(HistoryKey(c, "")));
  }

  lemma ReplayOne(b: Budget, touches: seq<Touch>, t: Touch)
    ensures Replay(b, touches + [t]) == Apply(b, Replay(b, touches), t)
  {
    hide Apply;
    assert (touches + [t])[..|touches|] == touches;
  }

  lemma EnqueueCarries(s: State, c: string, r: string, w: Wid, bytes: nat, g0: Group, rd0: Reader, key: HistoryKey)
    requires w !in s.waiters && (c !in s.groups ==> g0.readers == map[] && !g0.discardHistory)
    requires Present(s.groups, key) || key.community != c || (key.reader != "" && key.reader != r)
    ensures Carries(s, Enqueue(s, c, r, w, bytes, g0, rd0), key, 0)
  {
    hide Recorded, Tally, Owes, Onward, Forget, Replay;
    var s' := Enqueue(s, c, r, w, bytes, g0, rd0);
    EnqueueRecords(s, c, r, w, bytes, g0, rd0);
    NewWaiterSteady(s, s', w, Waiter(c, r, bytes, Queued, false));
    SteadyIsOnward(s, s');
    if Present(s.groups, key) { OnwardOwes(s, s', key); }
  }

  lemma DiscardCarries(s: State, c: string, key: HistoryKey)
    requires key.community != c
    ensures Carries(s, Discard(s, c), key, 0)
  {
    hide Replay, Tally;
  }

  lemma DisownCarries(s: State, c: string, key: HistoryKey)
    requires key.community != c
    ensures Carries(s, Disown(s, c), key, 0)
  {
    hide Carries, Tally, ForgetCommunity;
    OneTouchCarries(s, Disown(s, c), GoneAll(c), key);
  }

  /** Whoever is restored leaves a record again when it goes. */
  lemma RestoredIsFresh(s: State, c: string, now: int)
    ensures RestoreGroup(s, c, now).readers == map[] && !RestoreGroup(s, c, now).discardHistory
  {
  }

  lemma ArriveCarries(s: State, c: string, r: string, w: Wid, bytes: nat, now: int, victims: seq<Wid>, env: Env, key: HistoryKey)
    requires Inv(s) && c != "" && r != "" && w !in s.waiters && EvictionRun(s, c, r, bytes, victims, env)
    requires Present(s.groups, key) || key.community != c || (key.reader != "" && key.reader != r)
    ensures Carries(s, Admit(s, c, r, w, bytes, now, victims, env), key, 0)
  {
    hide Core, NoIdle, Saturated, Carries, EvictionRun, AfterEvictions, RestoreGroup, RestoreReader, Enqueue, Refuse, Full;
    AdmitReady(s, c, r, w, bytes, now, victims, env);
    EvictionsSpare(s, c, r, bytes, victims, env);
    EvictionsCarry(s, c, r, bytes, victims, env, key);
    var s1, s' := AfterEvictions(s, c, r, bytes, victims, env), Admit(s, c, r, w, bytes, now, victims, env);
    RestoredIsFresh(s, c, now);
    var g0 := if c in s.groups then s.groups[c] else RestoreGroup(s, c, now);
    var rd0 := if Seated(s, c, r) then s.groups[c].readers[r] else RestoreReader(s, c, r, g0.clock, now);
    if Full(s1, bytes) {
      RefuseCarries(s1, c, r, w, bytes, key);
      CarriesThen(s, s1, s', key, 0, 0);
    } else {
      var m := Enqueue(s1, c, r, w, bytes, g0, rd0);
      EnqueueCarries(s1, c, r, w, bytes, g0, rd0, key);
      CarriesThen(s, s1, m, key, 0, 0);
      DispatchCarries(m, env, key);
      CarriesThen(s, m, s', key, 0, 0);
    }
  }

  lemma DeleteCarries(s: State, c: string, order: seq<Wid>, env: Env, key: HistoryKey)
    requires Inv(s) && Settled(Discard(s, c)) && DropRun(Discard(s, c), c, order, env) && key.community != c
    ensures Carries(s, Drop(s, c, order, env), key, 0)
  {
    hide Core, NoIdle, Saturated, Carries, DropRun, AfterDrops, Discard, Disown;
    var d := Discard(s, c);
    DiscardCarries(s, c, key);
    DropsCarry(d, c, order, env, key);
    var s1 := AfterDrops(d, c, order, env);
    CarriesThen(s, d, s1, key, 0, 0);
    ForgottenKeeps(s1, c);
    DisownCarries(s1, c, key);
    CarriesThen(s, s1, Disown(s1, c), key, 0, 0);
    DispatchCarries(Disown(s1, c), env, key);
    CarriesThen(s, Disown(s1, c), Drop(s, c, order, env), key, 0, 0);
  }

  lemma DoneCarries(s: State, w: Wid, elapsed: int, env: Env, key: HistoryKey)
    requires Inv(s) && w in s.waiters && s.waiters[w].phase.Running?
    ensures Carries(s, Release(s, w, elapsed, env), key, WorkedFor(s, Done(w, elapsed), key))
  {
    hide Core, NoIdle, Saturated, Carries, Finish, WorkedFor;
    FinishKeeps(s, w, elapsed, env);
    FinishCarries(s, w, elapsed, env, key);
    DispatchCarries(Finish(s, w, elapsed, env), env, key);
    CarriesThen(s, Finish(s, w, elapsed, env), Release(s, w, elapsed, env), key, WorkedFor(s, Done(w, elapsed), key), 0);
  }

  /** One event: the key stays and pays, or leaves with all it owes kept, or stays away untouched. */
  lemma EventCarries(s: State, e: Event, env: Env, key: HistoryKey)
    requires Enabled(s, e, env) && (Present(s.groups, key) || !Brings(e, key)) && !(e.Delete? && e.c == key.community)
    ensures Carries(s, Next(s, e, env), key, WorkedFor(s, e, key))
  {
    hide Core, NoIdle, Saturated, Carries, Present, DropRun, EvictionRun, Admit, Drop, Dispatch;
    match e
    case Arrive(c, r, w, payload, now, victims) =>
      if TakesLock(s.budget, e) {
        ArriveCarries(s, c, r, w, RequestBytes(payload), now, victims, env, key);
      } else {
        NothingCarries(s, key);
      }
    case Wake(w, contextDone) =>
      if s.waiters[w].phase.Queued? {
        QueuedIsPlaced(s, w);
        LeaveCarries(s, w, if contextDone then Cancelled else Expired, false, env, key);
      } else {
        NothingCarries(s, key);
      }
    case Done(w, elapsed) =>
      if s.waiters[w].phase.Running? { DoneCarries(s, w, elapsed, env, key); } else { NothingCarries(s, key); }
    case Delete(c, order) => DeleteCarries(s, c, order, env, key);
  }

  /** Once away the holder does not come back, and its community is never deleted. */
  ghost predicate StaysAway(s: State, trace: Trace, key: HistoryKey)
    requires Run(s, trace)
    decreases |trace|
  {
    trace == []
    || ((Present(s.groups, key) || !Brings(trace[0].0, key)) && !(trace[0].0.Delete? && trace[0].0.c == key.community)
        && StaysAway(Next(s, trace[0].0, trace[0].1), trace[1..], key))
  }

  ghost function WorkedForOver(s: State, trace: Trace, key: HistoryKey): nat
    requires Run(s, trace)
    decreases |trace|
  {
    if trace == [] then 0
    else WorkedFor(s, trace[0].0, key) + WorkedForOver(Next(s, trace[0].0, trace[0].1), trace[1..], key)
  }

  /** Whoever is away has no work to finish. */
  lemma AwayWorksNothing(s: State, e: Event, key: HistoryKey)
    requires Core(s) && !Present(s.groups, key)
    ensures WorkedFor(s, e, key) == 0
  {
    if e.Done? && e.w in s.waiters && s.waiters[e.w].phase.Running? { RunningCounts(s, e.w); }
  }

  lemma {:induction false} AwayWorksNever(s: State, trace: Trace, key: HistoryKey)
    requires Inv(s) && Run(s, trace) && StaysAway(s, trace, key) && !Present(s.groups, key)
    ensures WorkedForOver(s, trace, key) == 0
    decreases |trace|
  {
    hide Core, NoIdle, Saturated, Next, Enabled, WorkedFor, Present, Brings, Recorded, Untouched, Discards;
    if trace != [] {
      AwayWorksNothing(s, trace[0].0, key);
      EventCarries(s, trace[0].0, trace[0].1, key);
      AwayWorksNever(Next(s, trace[0].0, trace[0].1), trace[1..], key);
    }
  }

  lemma {:induction false} DebtOverRuns(s: State, trace: Trace, key: HistoryKey)
    requires Inv(s) && Run(s, trace) && StaysAway(s, trace, key)
    ensures Carries(s, After(s, trace), key, WorkedForOver(s, trace, key))
    decreases |trace|
  {
    hide Core, NoIdle, Saturated, Next, Enabled, WorkedFor, Present, Brings, Carries;
    if trace == [] {
      NothingCarries(s, key);
    } else {
      var s' := Next(s, trace[0].0, trace[0].1);
      EventCarries(s, trace[0].0, trace[0].1, key);
      DebtOverRuns(s', trace[1..], key);
      if !Present(s'.groups, key) { AwayWorksNever(s', trace[1..], key); }
      CarriesThen(s, s', After(s', trace[1..]), key, WorkedFor(s, trace[0].0, key), WorkedForOver(s', trace[1..], key));
    }
  }

  // ---------- Returning ----------

  lemma EventRecords(s: State, e: Event, env: Env)
    requires Enabled(s, e, env)
    ensures var s' := Next(s, e, env); s'.budget == s.budget && (Recorded(s) ==> Recorded(s'))
  {
    hide Core, NoIdle, Saturated, Next, Enabled, Recorded;
    var other := HistoryKey(if e.Arrive? || e.Delete? then e.c + "x" else "", "");
    assert (e.Arrive? || e.Delete?) ==> |other.community| > |e.c|;
    EventCarries(s, e, env, other);
  }

  /** The list of remembered debt is always what the record of it comes to. */
  lemma {:induction false} RecordedOverRuns(s: State, trace: Trace)
    requires Inv(s) && Run(s, trace) && Recorded(s)
    ensures Recorded(After(s, trace)) && After(s, trace).budget == s.budget
    decreases |trace|
  {
    hide Core, NoIdle, Saturated, Next, Enabled, Recorded;
    if trace != [] {
      EventRecords(s, trace[0].0, trace[0].1);
      RecordedOverRuns(Next(s, trace[0].0, trace[0].1), trace[1..]);
    }
  }

  /** What a community or a reader starts from when it is restored; `clock` is its parent's. */
  function ServiceOnReturn(s: State, key: HistoryKey, clock: int, now: int): int {
    if key.reader == "" then GroupFrom(Remembered(s.lru, key, now), clock).service
    else ReaderFrom(Remembered(s.lru, key, now), clock).service
  }

  /** What touch `i` kept is remembered exactly unless as many others as the list holds became newer
      at some moment; and its holder restarts from the larger of it and the clock if it is remembered
      and returns within the minute, else from the clock alone. */
  ghost predicate RemembersExactly(s: State, i: nat, clock: int, now: int) {
    i < |s.touches| && s.touches[i].Kept?
    && var h := s.touches[i].h;
       Recall(s.lru, h.key) == (if Crowded(s.budget, s.touches, i + 1) then None else Some(h))
       && ServiceOnReturn(s, h.key, clock, now)
          == if !Crowded(s.budget, s.touches, i + 1) && now - h.at < HISTORY_KEPT then Max(clock, h.service) else clock
  }

  lemma RemembersKept(s: State, key: HistoryKey, i: nat, least: int, clock: int, now: int)
    requires Recorded(s) && KeptAt(s.touches, key, i, least)
    ensures RemembersExactly(s, i, clock, now)
  {
    hide Recall, Crowded, Replay, Untouched;
    RememberedIff(s.budget, s.touches, i);
  }

  /** A community or reader that goes idle leaves all it owes behind, the work it still did included,
      and while it stays away that debt is remembered, and given back, exactly so. */
  lemma IdleReturnKeepsDebt(s: State, trace: Trace, key: HistoryKey, clock: int, now: int) returns (i: nat)
    requires Inv(s) && Recorded(s) && Run(s, trace) && StaysAway(s, trace, key)
    requires Present(s.groups, key) && !Discards(s, key) && !Present(After(s, trace).groups, key)
    ensures |s.touches| <= i && KeptAt(After(s, trace).touches, key, i, Owes(s, key) + WorkedForOver(s, trace, key))
    ensures RemembersExactly(After(s, trace), i, clock, now)
  {
    hide Core, NoIdle, Saturated, Owes, Discards, Present, KeptAt, RemembersExactly, Recorded, Run, StaysAway;
    RecordedOverRuns(s, trace);
    DebtOverRuns(s, trace, key);
    i :| |s.touches| <= i < |After(s, trace).touches|
         && KeptAt(After(s, trace).touches, key, i, Owes(s, key) + WorkedForOver(s, trace, key));
    RemembersKept(After(s, trace), key, i, Owes(s, key) + WorkedForOver(s, trace, key), clock, now);
  }

  /** Every state a run reaches from the empty scheduler is recorded. */
  lemma RecordedFromStart(b: Budget, trace: Trace)
    requires Inv(Init(b)) && Run(Init(b), trace)
    ensures Recorded(After(Init(b), trace)) && After(Init(b), trace).budget == b
  {
    hide Core, NoIdle, Saturated, Recorded, Run;
    StartRecorded(b);
    RecordedOverRuns(Init(b), trace);
  }

  lemma StartRecorded(b: Budget)
    ensures Recorded(Init(b)) && Init(b).budget == b
  {
  }

  /** That is what an arrival restores. */
  lemma ReturnIsRestore(s: State, c: string, r: string, clock: int, now: int)
    ensures RestoreGroup(s, c, now).service == ServiceOnReturn(s, HistoryKey(c, ""), s.clock, now)
    ensures r != "" ==> RestoreReader(s, c, r, clock, now).service == ServiceOnReturn(s, HistoryKey(c, r), clock, now)
  {
  }
}

/** What holds over whole runs of the scheduler, whatever the interleaving of events. */
module SchedulerRuns {
  import opened SchedulerState
  import opened SchedulerSteps
  import opened SchedulerInvariant
  import opened SchedulerEvents

  // ---------- Standing of a community ----------

  /** Service beyond the charges of work still running. */
  ghost function Credit(s: State, c: string): int
    requires c in s.groups
  {
    s.groups[c].service - Tally(s.waiters, GroupCharge(c))
  }

  ghost function ReaderCredit(s: State, c: string, r: string): int
    requires Seated(s, c, r)
  {
    s.groups[c].readers[r].service - Tally(s.waiters, ReaderCharge(c, r))
  }

  ghost function Starts(s: State, c: string): nat { multiset(s.log)[c] }

  /** Credit, counting each running request as the least it can cost. */
  ghost function Standing(s: State, c: string): int
    requires c in s.groups
  {
    Credit(s, c) + MILLISECOND * s.groups[c].active
  }

  /** How many requests of a reader have been started so far. */
  ghost function ReaderStarts(s: State, c: string, r: string): int { Tally(s.waiters, ReaderStarted(c, r)) }

  ghost function ReaderStanding(s: State, c: string, r: string): int
    requires Seated(s, c, r)
  {
    ReaderCredit(s, c, r) + MILLISECOND * s.groups[c].readers[r].active
  }

  ghost predicate SeatSame(s: State, s': State, c: string, r: string) {
    Seated(s, c, r) && Seated(s', c, r) && ReaderCredit(s', c, r) == ReaderCredit(s, c, r) && ReaderStarts(s', c, r) == ReaderStarts(s, c, r)
    && s'.groups[c].readers[r].service == s.groups[c].readers[r].service
    && s'.groups[c].readers[r].active == s.groups[c].readers[r].active
  }

  /** Credit only rose, and standing with every start. */
  ghost predicate SeatRises(s: State, s': State, c: string, r: string) {
    Seated(s, c, r) && Seated(s', c, r) && ReaderCredit(s, c, r) <= ReaderCredit(s', c, r)
    && ReaderStanding(s, c, r) - MILLISECOND * ReaderStarts(s, c, r) <= ReaderStanding(s', c, r) - MILLISECOND * ReaderStarts(s', c, r)
  }

  /** A waiter's later record: only a queued request may start, only a running one may complete. */
  predicate Lived(x: Waiter, y: Waiter) {
    y.cid == x.cid && y.rid == x.rid && y.bytes == x.bytes
    && match x.phase
       case Queued => x.closed ==> y.closed
       case Running(_, _) => y.closed == x.closed && (y.phase == x.phase || y.phase.Completed?)
       case _ => y == x
  }

  ghost predicate AllLived(s: State, s': State) {
    forall w :: w in s.waiters ==> w in s'.waiters && Lived(s.waiters[w], s'.waiters[w])
  }

  ghost predicate RunningKept(s: State, s': State) {
    forall w :: w in s.waiters && s.waiters[w].phase.Running? ==> w in s'.waiters && s'.waiters[w] == s.waiters[w]
  }

  /** No group or reader of `s` that is still there in `s'` was missing in between. */
  ghost predicate NoComeback(s: State, m: State, s': State) {
    (forall c :: c in s.groups && c in s'.groups ==> c in m.groups)
    && (forall c, r :: Seated(s, c, r) && Seated(s', c, r) ==> Seated(m, c, r))
  }

  ghost predicate Shrinks(s: State, s': State) {
    (forall c :: c in s'.groups ==> c in s.groups) && (forall c, r :: Seated(s', c, r) ==> Seated(s, c, r))
  }

  /** Nothing started or finished. */
  ghost predicate Steady(s: State, s': State) {
    s'.clock == s.clock && s'.log == s.log && AllLived(s, s') && RunningKept(s, s')
    && (forall c :: c in s.groups && c in s'.groups ==>
          s'.groups[c].service == s.groups[c].service && s'.groups[c].active == s.groups[c].active
          && s'.groups[c].clock == s.groups[c].clock && Credit(s', c) == Credit(s, c))
    && (forall c, r :: Seated(s, c, r) && Seated(s', c, r) ==> SeatSame(s, s', c, r))
  }

  /** Time moved on: clocks and credit only rose, and standing rose with every start. */
  ghost predicate Onward(s: State, s': State) {
    s.clock <= s'.clock && AllLived(s, s')
    && (forall c :: c in s.groups && c in s'.groups ==>
          s.groups[c].clock <= s'.groups[c].clock && Credit(s, c) <= Credit(s', c)
          && Standing(s, c) - MILLISECOND * Starts(s, c) <= Standing(s', c) - MILLISECOND * Starts(s', c))
    && (forall c, r :: Seated(s, c, r) && Seated(s', c, r) ==> SeatRises(s, s', c, r))
  }

  lemma SteadyIsOnward(s: State, s': State)
    requires Steady(s, s')
    ensures Onward(s, s')
  {
    hide Tally;
  }

  lemma SteadyThen(s: State, m: State, s': State)
    requires Steady(s, m) && Steady(m, s') && NoComeback(s, m, s')
    ensures Steady(s, s')
  {
    hide Tally, Credit, ReaderCredit, ReaderStarts;
  }

  lemma OnwardThen(s: State, m: State, s': State)
    requires Onward(s, m) && Onward(m, s') && NoComeback(s, m, s')
    ensures Onward(s, s')
  {
    hide Tally, Credit, ReaderCredit, ReaderStarts, ReaderStanding, Standing, Starts;
  }

  lemma ShrinksComeback(s: State, m: State, s': State)
    requires Shrinks(m, s')
    ensures NoComeback(s, m, s')
    ensures Shrinks(s, m) ==> Shrinks(s, s')
  {
  }

  // ---------- The steps ----------

  lemma TouchedSteady(s: State, s': State, w: Wid, x: Waiter)
    requires Touches(s, s', w, x) && w in s.waiters && Lived(s.waiters[w], x)
    requires s.waiters[w].phase.Queued? && !x.phase.Running? && !x.phase.Completed?
    requires s'.clock == s.clock && s'.log == s.log
    requires s'.groups[x.cid].service == s.groups[x.cid].service && s'.groups[x.cid].active == s.groups[x.cid].active
    requires s'.groups[x.cid].clock == s.groups[x.cid].clock
    requires s'.groups[x.cid].readers[x.rid].service == s.groups[x.cid].readers[x.rid].service
    requires s'.groups[x.cid].readers[x.rid].active == s.groups[x.cid].readers[x.rid].active
    ensures Steady(s, s') && Shrinks(s, s')
  {
    hide Tally;
    TallyUpdate(s.waiters, w, x);
  }

  lemma SameWaitersSteady(s: State, s': State)
    requires s'.waiters == s.waiters && s'.clock == s.clock && s'.log == s.log && Shrinks(s, s')
    requires forall c :: c in s'.groups ==>
               s'.groups[c].service == s.groups[c].service && s'.groups[c].active == s.groups[c].active
               && s'.groups[c].clock == s.groups[c].clock
    requires forall c, r :: Seated(s', c, r) ==> s'.groups[c].readers[r].service == s.groups[c].readers[r].service
                                                 && s'.groups[c].readers[r].active == s.groups[c].readers[r].active
    ensures Steady(s, s')
  {
    hide Tally;
  }

  lemma TidySteady(s: State, c: string, r: string, env: Env)
    requires Seated(s, c, r)
    ensures Steady(s, Tidy(s, c, r, env)) && Shrinks(s, Tidy(s, c, r, env))
  {
    hide Remember, Tally;
    SameWaitersSteady(s, Tidy(s, c, r, env));
  }

  lemma NextTurnSteady(s: State, c: string, r: string)
    requires Seated(s, c, r)
    ensures Steady(s, NextTurn(s, c, r)) && Shrinks(s, NextTurn(s, c, r))
  {
    hide Tally;
    NextTurnIsTurns(s, c, r);
    SameWaitersSteady(s, NextTurn(s, c, r));
  }

  lemma DequeueSteady(s: State, w: Wid, p: Phase, close: bool)
    requires Core(s) && InQueue(s, w) && Leaving(p)
    ensures Steady(s, Dequeue(s, w, p, close)) && Shrinks(s, Dequeue(s, w, p, close))
  {
    DequeueKeeps(s, w, p, close);
    hide Core, Without;
    TouchedSteady(s, Dequeue(s, w, p, close), w, s.waiters[w].(phase := p, closed := close));
  }

  lemma LeaveSteady(s: State, w: Wid, p: Phase, close: bool, env: Env)
    requires Settled(s) && InQueue(s, w) && Leaving(p)
    ensures Steady(s, Leave(s, w, p, close, env)) && Shrinks(s, Leave(s, w, p, close, env))
  {
    var m := Dequeue(s, w, p, close);
    DequeueSteady(s, w, p, close);
    TidySteady(m, s.waiters[w].cid, s.waiters[w].rid, env);
    hide Core, NoIdle, Steady, Shrinks, Tidy, Dequeue;
    ShrinksComeback(s, m, Withdraw(s, w, p, close, env));
    SteadyThen(s, m, Withdraw(s, w, p, close, env));
  }

  lemma TouchedOnward(s: State, s': State, w: Wid, x: Waiter)
    requires Touches(s, s', w, x) && w in s.waiters && Lived(s.waiters[w], x) && s.clock <= s'.clock
    requires forall d :: d != x.cid ==> Starts(s', d) == Starts(s, d)
    requires s.groups[x.cid].clock <= s'.groups[x.cid].clock && Credit(s, x.cid) <= Credit(s', x.cid)
    requires Standing(s, x.cid) - MILLISECOND * Starts(s, x.cid) <= Standing(s', x.cid) - MILLISECOND * Starts(s', x.cid)
    requires SeatRises(s, s', x.cid, x.rid)
    ensures Onward(s, s') && Shrinks(s, s')
    ensures forall d :: d in s.groups && d != x.cid ==> d in s'.groups && s'.groups[d] == s.groups[d] && Credit(s', d) == Credit(s, d)
  {
    hide Tally, Starts, SeatRises;
    TallyUpdate(s.waiters, w, x);
    TouchedSeats(s, s', w, x);
  }

  /** Only the reader whose waiter changed can have changed. */
  lemma TouchedSeats(s: State, s': State, w: Wid, x: Waiter)
    requires Touches(s, s', w, x) && w in s.waiters && SeatRises(s, s', x.cid, x.rid)
    ensures forall c, r :: Seated(s, c, r) && Seated(s', c, r) ==> SeatRises(s, s', c, r)
  {
    hide Tally;
    TallyUpdate(s.waiters, w, x);
  }

  lemma StartOnward(s: State, c: string, r: string)
    requires Core(s) && CanPop(s, c, r) && s.active < s.budget.workers
    ensures var s' := Start(s, c, r);
            Onward(s, s') && Shrinks(s, s')
            && Credit(s', c) == Credit(s, c) && s'.groups[c].active == s.groups[c].active + 1
            && forall d :: d in s.groups && d != c ==> d in s'.groups && s'.groups[d] == s.groups[d] && Credit(s', d) == Credit(s, d)
  {
    hide Tally, Core;
    StartKeeps(s, c, r);
    var s' := Start(s, c, r);
    var w := s.groups[c].readers[r].queue[0];
    TallyUpdate(s.waiters, w, s'.waiters[w]);
    assert multiset(s'.log) == multiset(s.log) + multiset{c};
    TouchedOnward(s, s', w, s'.waiters[w]);
  }

  /** Finished work leaves at least its observed duration behind as credit. */
  lemma CompleteOnward(s: State, w: Wid, elapsed: int)
    requires Core(s) && IsRunning(s, w)
    ensures var s', c := Complete(s, w, elapsed), s.waiters[w].cid;
            Onward(s, s') && Shrinks(s, s') && s'.log == s.log
            && Credit(s', c) >= Credit(s, c) + Max(MILLISECOND, elapsed)
            && Seated(s', c, s.waiters[w].rid)
            && ReaderCredit(s', c, s.waiters[w].rid) >= ReaderCredit(s, c, s.waiters[w].rid) + Max(MILLISECOND, elapsed)
            && forall d :: d in s.groups && d != c ==> d in s'.groups && s'.groups[d] == s.groups[d] && Credit(s', d) == Credit(s, d)
  {
    hide Tally, Core;
    CompleteKeeps(s, w, elapsed);
    var s' := Complete(s, w, elapsed);
    TallyUpdate(s.waiters, w, s'.waiters[w]);
    TouchedOnward(s, s', w, s'.waiters[w]);
  }

  // ---------- A turn ----------

  ghost predicate SameFor(s: State, s': State, d: string) {
    d in s.groups && d in s'.groups && s'.groups[d].service == s.groups[d].service
    && s'.groups[d].active == s.groups[d].active && Credit(s', d) == Credit(s, d) && Starts(s', d) == Starts(s, d)
  }

  ghost predicate StartedFor(s: State, s': State, c: string) {
    c in s.groups && c in s'.groups && s'.groups[c].active == s.groups[c].active + 1
    && Credit(s', c) == Credit(s, c) && Starts(s', c) == Starts(s, c) + 1
  }

  /** A turn moves only the community whose turn it is. */
  ghost predicate Turn(s: State, s': State, c: string) {
    Onward(s, s') && Shrinks(s, s')
    && (forall d :: d in s'.groups && d != c ==> SameFor(s, s', d) && s'.groups[d].waiting == s.groups[d].waiting)
    && (c in s'.groups ==> SameFor(s, s', c) || StartedFor(s, s', c))
  }

  lemma ServeTurn(s: State, c: string, r: string, env: Env)
    requires Core(s) && CanPop(s, c, r) && s.active < s.budget.workers
    ensures Turn(s, Serve(s, c, r, env), c)
  {
    hide Core, Onward, Credit, Shrinks, Without;
    var w := s.groups[c].readers[r].queue[0];
    match env.fate(w)
    case Go =>
      StartOnward(s, c, r);
      assert multiset(s.log + [c]) == multiset(s.log) + multiset{c};
    case ContextDone =>
      DequeueSteady(s, w, Cancelled, true);
      SteadyIsOnward(s, Dequeue(s, w, Cancelled, true));
    case PastDeadline =>
      DequeueSteady(s, w, Expired, true);
      SteadyIsOnward(s, Dequeue(s, w, Expired, true));
  }

  lemma TidyCounts(s: State, c: string, r: string, env: Env)
    requires Seated(s, c, r)
    ensures forall d :: d in Tidy(NextTurn(s, c, r), c, r, env).groups ==>
              d in s.groups && Tidy(NextTurn(s, c, r), c, r, env).groups[d].waiting == s.groups[d].waiting
  {
    hide Remember;
  }

  lemma PopTurn(s: State, c: string, r: string, env: Env)
    requires Settled(s) && CanPop(s, c, r) && s.active < s.budget.workers
    ensures Turn(s, Pop(s, c, r, env), c)
  {
    hide Core, NoIdle;
    var m1 := Serve(s, c, r, env);
    NoIdleAtAll(s, c, r);
    ServeKeeps(s, c, r, env);
    hide Serve;
    ServeTurn(s, c, r, env);
    var m2 := NextTurn(m1, c, r);
    NextTurnSteady(m1, c, r);
    NextTurnIsTurns(m1, c, r);
    TidySteady(m2, c, r, env);
    TidyCounts(m1, c, r, env);
    hide NextTurn, Tidy, OnlyTurns, NoIdleBut;
    var s' := Pop(s, c, r, env);
    ShrinksComeback(m1, m2, s');
    SteadyThen(m1, m2, s');
    SteadyAfterTurn(s, m1, s', c);
  }

  lemma SteadyAfterTurn(s: State, m: State, s': State, c: string)
    requires Turn(s, m, c) && Steady(m, s') && Shrinks(m, s')
    requires forall d :: d in s'.groups ==> s'.groups[d].waiting == m.groups[d].waiting
    ensures Turn(s, s', c)
  {
    SteadyIsOnward(m, s');
    ShrinksComeback(s, m, s');
    OnwardThen(s, m, s');
    hide Onward, Credit, AllLived, ReaderCredit;
  }

  lemma {:induction false} DispatchOnward(s: State, env: Env)
    requires Settled(s)
    ensures Onward(s, Dispatch(s, env)) && Shrinks(s, Dispatch(s, env))
    decreases s.waiting
  {
    hide Core, NoIdle, Tally, Pop;
    if CanDispatch(s) {
      ReadyMeansWaiting(s);
      var c := NextGroup(s);
      PopTurn(s, c, NextReader(s, c), env);
      var m := DispatchOne(s, env);
      DispatchOnward(m, env);
      ShrinksComeback(s, m, Dispatch(m, env));
      hide Onward, Shrinks;
      OnwardThen(s, m, Dispatch(m, env));
    } else {
      SameWaitersSteady(s, s);
      SteadyIsOnward(s, s);
    }
  }

  lemma PopKeepsRunning(s: State, c: string, r: string, env: Env)
    requires CanPop(s, c, r)
    ensures RunningKept(s, Pop(s, c, r, env))
  {
    hide Remember, Without;
  }

  /** Handing out free workers takes none away. */
  lemma {:induction false} DispatchKeepsRunning(s: State, env: Env)
    requires Settled(s)
    ensures RunningKept(s, Dispatch(s, env))
    decreases s.waiting
  {
    hide Core, NoIdle, Pop;
    if CanDispatch(s) {
      ReadyMeansWaiting(s);
      PopKeepsRunning(s, NextGroup(s), NextReader(s, NextGroup(s)), env);
      DispatchKeepsRunning(DispatchOne(s, env), env);
    }
  }

  // ---------- Overtaking within one dispatch ----------

  /** `x` has work queued and no worker. */
  ghost predicate WaitsIdle(s: State, x: string) {
    x in s.groups && s.groups[x].waiting > 0 && s.groups[x].active == 0
  }

  /** `y` started once, from no worker and with no more service than `x` had. */
  ghost predicate Overtook(s: State, s': State, x: string, y: string) {
    x in s.groups && y in s.groups && y in s'.groups
    && s.groups[y].active == 0 && s.groups[y].service <= s.groups[x].service
    && Starts(s', y) == Starts(s, y) + 1
    && Credit(s', y) == Credit(s, y) && s'.groups[y].active == 1
  }

  lemma ActiveNotNegative(s: State, c: string)
    requires Core(s) && c in s.groups
    ensures s.groups[c].active >= 0
    ensures s.groups[c].active == 0 ==> Credit(s, c) == s.groups[c].service
  {
    hide Tally, OrdersOk, HistoryOk, ReaderOk;
    assert GroupOk(s.waiters, c, s.groups[c]);
    TallyAtLeast(s.waiters, GroupActive(c));
    if s.groups[c].active == 0 {
      TallyNothing(s.waiters, GroupCharge(c));
    }
  }

  lemma TurnWaits(s: State, m: State, x: string, c: string)
    requires Core(s) && IsLeast(ReadyGroups(s.groups), c) && Turn(s, m, c) && WaitsIdle(m, x)
    ensures WaitsIdle(s, x) && s.groups[x].service == m.groups[x].service
  {
    hide Core, Onward, Credit, Starts, Shrinks;
    if x == c { ActiveNotNegative(s, x); }
  }

  lemma TurnOvertakes(s: State, m: State, f: State, x: string, y: string, c: string)
    requires Core(s) && Core(m) && IsLeast(ReadyGroups(s.groups), c) && Turn(s, m, c) && WaitsIdle(m, x) && WaitsIdle(s, x)
    requires s.groups[x].service == m.groups[x].service && x != y && y in m.groups && y in s.groups
    requires SameFor(m, f, y) || Overtook(m, f, x, y)
    ensures SameFor(s, f, y) || Overtook(s, f, x, y)
  {
    hide Core, Onward, Credit, Starts, Shrinks;
    ActiveNotNegative(s, y);
    assert x in ReadyGroups(s.groups);
  }

  /** While `x` waits for its first worker, one dispatch starts a competitor at most once,
      and only one without a worker whose service is no more than `x`'s. */
  lemma {:induction false} DispatchOvertakes(s: State, env: Env, x: string, y: string)
    requires Settled(s) && x != y
    requires WaitsIdle(Dispatch(s, env), x) && y in Dispatch(s, env).groups
    ensures WaitsIdle(s, x) && y in s.groups && s.groups[x].service == Dispatch(s, env).groups[x].service
    ensures SameFor(s, Dispatch(s, env), y) || Overtook(s, Dispatch(s, env), x, y)
    decreases s.waiting
  {
    if CanDispatch(s) {
      hide Core, NoIdle, Tally, Pop, Turn, WaitsIdle, Overtook, SameFor, IsLeast;
      ReadyMeansWaiting(s);
      var c := NextGroup(s);
      PopTurn(s, c, NextReader(s, c), env);
      var m := DispatchOne(s, env);
      DispatchOvertakes(m, env, x, y);
      TurnWaits(s, m, x, c);
      TurnKeepsPresent(s, m, c, y);
      TurnWasPresent(s, x);
      TurnWasPresent(m, x);
      TurnOvertakes(s, m, Dispatch(m, env), x, y, c);
    }
  }

  lemma TurnKeepsPresent(s: State, m: State, c: string, y: string)
    requires Turn(s, m, c) && y in m.groups
    ensures y in s.groups
  {
  }

  lemma TurnWasPresent(s: State, x: string)
    requires WaitsIdle(s, x)
    ensures x in s.groups
  {
  }

  // ---------- The part of an event before it dispatches ----------

  ghost predicate Prepares(s: State, m: State, busy: string) {
    Onward(s, m) && m.log == s.log
    && forall d :: d in s.groups && d in m.groups && d != busy ==>
         m.groups[d].service == s.groups[d].service && m.groups[d].active == s.groups[d].active
  }

  lemma SteadyPrepares(s: State, m: State)
    requires Steady(s, m)
    ensures Prepares(s, m, "")
  {
    SteadyIsOnward(s, m);
  }

  lemma {:induction false} EvictionsSteady(s: State, c: string, r: string, bytes: nat, victims: seq<Wid>, env: Env)
    requires Settled(s) && EvictionRun(s, c, r, bytes, victims, env)
    ensures var m := AfterEvictions(s, c, r, bytes, victims, env); Steady(s, m) && Shrinks(s, m)
    decreases |victims|
  {
    hide Core, NoIdle, IsVictim, NoDonor, Full, Withdraw;
    if victims == [] {
      SameWaitersSteady(s, s);
    } else {
      VictimAtHead(s, c, r, bytes, victims, env);
      LeaveSteady(s, victims[0], Rejected, true, env);
      var m := Leave(s, victims[0], Rejected, true, env);
      EvictionsSteady(m, c, r, bytes, victims[1..], env);
      var s' := AfterEvictions(m, c, r, bytes, victims[1..], env);
      ShrinksComeback(s, m, s');
      hide Steady, Shrinks;
      SteadyThen(s, m, s');
    }
  }

  lemma {:induction false} DropsSteady(s: State, c: string, order: seq<Wid>, env: Env)
    requires Settled(s) && DropRun(s, c, order, env)
    ensures Steady(s, AfterDrops(s, c, order, env)) && Shrinks(s, AfterDrops(s, c, order, env))
    decreases |order|
  {
    hide Core, NoIdle, Withdraw;
    if order == [] {
      SameWaitersSteady(s, s);
    } else {
      LeaveSteady(s, order[0], Cancelled, true, env);
      var m := Leave(s, order[0], Cancelled, true, env);
      DropsSteady(m, c, order[1..], env);
      var s' := AfterDrops(m, c, order[1..], env);
      ShrinksComeback(s, m, s');
      hide Steady, Shrinks;
      SteadyThen(s, m, s');
    }
  }

  lemma NewWaiterSteady(s: State, s': State, w: Wid, x: Waiter)
    requires w !in s.waiters && s'.waiters == s.waiters[w := x] && !x.phase.Running? && !x.phase.Completed?
    requires s'.clock == s.clock && s'.log == s.log
    requires forall c :: c in s.groups && c in s'.groups ==>
               s'.groups[c].service == s.groups[c].service && s'.groups[c].active == s.groups[c].active
               && s'.groups[c].clock == s.groups[c].clock
    requires forall c, r :: Seated(s, c, r) && Seated(s', c, r) ==>
               s'.groups[c].readers[r].service == s.groups[c].readers[r].service
               && s'.groups[c].readers[r].active == s.groups[c].readers[r].active
    ensures Steady(s, s')
  {
    hide Tally;
    TallyUpdate(s.waiters, w, x);
  }

  lemma FinishOnward(s: State, w: Wid, elapsed: int, env: Env)
    requires Settled(s) && w in s.waiters && s.waiters[w].phase.Running?
    ensures IsRunning(s, w)
    ensures var m, c, r := Finish(s, w, elapsed, env), s.waiters[w].cid, s.waiters[w].rid;
            Prepares(s, m, c) && Shrinks(s, m) && s.groups[c].active > 0
            && (c in m.groups ==> Credit(m, c) >= Credit(s, c) + Max(MILLISECOND, elapsed))
            && (Seated(m, c, r) ==> ReaderCredit(m, c, r) >= ReaderCredit(s, c, r) + Max(MILLISECOND, elapsed))
  {
    hide NoIdle, Core, Complete, Tidy, Credit, ReaderCredit, AllLived, Starts, NoComeback;
    FinishKeeps(s, w, elapsed, env);
    var c, r := s.waiters[w].cid, s.waiters[w].rid;
    RunningCounts(s, w);
    CompleteOnward(s, w, elapsed);
    var m1, m := Complete(s, w, elapsed), Finish(s, w, elapsed, env);
    TidySteady(m1, c, r, env);
    FinishSteps(s, m1, m, c);
  }

  lemma FinishSteps(s: State, m1: State, m: State, busy: string)
    requires Onward(s, m1) && Shrinks(s, m1) && m1.log == s.log && Steady(m1, m) && Shrinks(m1, m)
    requires forall d :: d in s.groups && d != busy ==> d in m1.groups && m1.groups[d] == s.groups[d]
    ensures Prepares(s, m, busy) && Shrinks(s, m)
  {
    hide Credit, ReaderCredit, AllLived, Onward;
    SteadyIsOnward(m1, m);
    ShrinksComeback(s, m1, m);
    OnwardThen(s, m1, m);
  }

  lemma RunningCounts(s: State, w: Wid)
    requires Core(s) && w in s.waiters && s.waiters[w].phase.Running?
    ensures IsRunning(s, w) && s.groups[s.waiters[w].cid].active > 0
  {
    hide Tally, OrdersOk, HistoryOk;
    TallyAtLeast(s.waiters, GroupActive(s.waiters[w].cid));
  }
}

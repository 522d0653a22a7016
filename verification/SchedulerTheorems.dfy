/** The scheduler's guarantees, event by event and over whole runs. */
module SchedulerTheorems {
  import opened SchedulerState
  import opened SchedulerSteps
  import opened SchedulerInvariant
  import opened SchedulerEvents
  import opened SchedulerRuns

  // ---------- Reachable states ----------

  /** From the empty scheduler, every run keeps counters, queues, placement, budgets and history in agreement. */
  lemma InvariantOverRuns(b: Budget, trace: Trace)
    ensures Inv(Init(b))
    ensures Run(Init(b), trace) ==> Inv(After(Init(b), trace))
  {
    InitOk(b);
  }

  /** Every request that took the lock is in exactly one place. */
  lemma Conservation(s: State)
    requires Inv(s)
    ensures |s.waiters| == s.completed + s.rejected + s.expired + s.cancelled + s.active + s.waiting
  {
    hide OrdersOk, HistoryOk, GroupsOk, WaitersOk, Tally;
    TallyPartition(s.waiters);
  }

  /** Eviction and drop orders exist, so an arrival or a deletion is never stuck. */
  lemma EventsNeverStick(s: State, c: string, r: string, w: Wid, payload: int, now: int, env: Env)
    requires Inv(s) && w !in s.waiters
    ensures exists victims :: Enabled(s, Arrive(c, r, w, payload, now, victims), env)
    ensures exists order :: Enabled(s, Delete(c, order), env)
  {
    hide Core, NoIdle;
    var victims := EvictionEnds(s, c, r, RequestBytes(payload), env);
    assert Enabled(s, Arrive(c, r, w, payload, now, victims), env);
    DiscardKeeps(s, c);
    var order := DropEnds(Discard(s, c), c, env);
    assert Enabled(s, Delete(c, order), env);
  }

  // ---------- One event ----------

  /** The state an event reaches before it hands out free workers. */
  ghost function Prepared(s: State, e: Event, env: Env): State
    requires Enabled(s, e, env)
  {
    match e
    case Arrive(c, r, w, payload, now, victims) =>
      if !TakesLock(s.budget, e) then s
      else
        var s1 := AfterEvictions(s, c, r, RequestBytes(payload), victims, env);
        var g0 := if c in s.groups then s.groups[c] else RestoreGroup(s, c, now);
        var rd0 := if Seated(s, c, r) then s.groups[c].readers[r] else RestoreReader(s, c, r, g0.clock, now);
        if Full(s1, RequestBytes(payload)) then Refuse(s1, c, r, w, RequestBytes(payload))
        else Enqueue(s1, c, r, w, RequestBytes(payload), g0, rd0)
    case Wake(w, contextDone) => GiveUp(s, w, contextDone, env)
    case Done(w, elapsed) =>
      if s.waiters[w].phase.Running? then RunningCounts(s, w); Finish(s, w, elapsed, env) else s
    case Delete(c, order) =>
      Disown(AfterDrops(Discard(s, c), c, order, env), c)
  }

  /** The community whose work an event finishes, and for how long it ran. */
  function Busy(s: State, e: Event): string {
    if e.Done? && e.w in s.waiters && s.waiters[e.w].phase.Running? then s.waiters[e.w].cid else ""
  }

  function Worked(s: State, e: Event, c: string): nat {
    if e.Done? && e.w in s.waiters && s.waiters[e.w].phase.Running? && s.waiters[e.w].cid == c
    then Max(MILLISECOND, e.elapsed) else 0
  }

  function WorkedBy(s: State, e: Event, c: string, r: string): nat {
    if e.Done? && e.w in s.waiters && s.waiters[e.w].rid == r then Worked(s, e, c) else 0
  }

  lemma NextFromPrepared(s: State, e: Event, env: Env)
    requires Enabled(s, e, env)
    ensures var m := Prepared(s, e, env);
            Next(s, e, env) == m || (Settled(m) && Next(s, e, env) == Dispatch(m, env))
  {
    hide Core, NoIdle, Dispatch;
    match e
    case Arrive(c, r, w, payload, now, victims) =>
      if TakesLock(s.budget, e) { AdmitReady(s, c, r, w, RequestBytes(payload), now, victims, env); }
    case Wake(w, contextDone) =>
    case Done(w, elapsed) =>
      if s.waiters[w].phase.Running? { FinishKeeps(s, w, elapsed, env); }
    case Delete(c, order) =>
      ForgottenKeeps(AfterDrops(Discard(s, c), c, order, env), c);
  }

  lemma ArriveSteady(s: State, c: string, r: string, w: Wid, bytes: nat, now: int, victims: seq<Wid>, env: Env)
    requires Inv(s) && w !in s.waiters && EvictionRun(s, c, r, bytes, victims, env)
    ensures var s1 := AfterEvictions(s, c, r, bytes, victims, env);
            Steady(s, Refuse(s1, c, r, w, bytes))
    ensures var s1 := AfterEvictions(s, c, r, bytes, victims, env);
            var g0 := if c in s.groups then s.groups[c] else RestoreGroup(s, c, now);
            var rd0 := if Seated(s, c, r) then s.groups[c].readers[r] else RestoreReader(s, c, r, g0.clock, now);
            Steady(s, Enqueue(s1, c, r, w, bytes, g0, rd0))
  {
    hide Core, NoIdle;
    var s1 := AfterEvictions(s, c, r, bytes, victims, env);
    EvictionsSteady(s, c, r, bytes, victims, env);
    EvictionsSpare(s, c, r, bytes, victims, env);
    hide EvictionRun, AfterEvictions;
    var g0 := if c in s.groups then s.groups[c] else RestoreGroup(s, c, now);
    var rd0 := if Seated(s, c, r) then s.groups[c].readers[r] else RestoreReader(s, c, r, g0.clock, now);
    assert c !in s.groups ==> g0.readers == map[];
    hide RestoreGroup, RestoreReader;
    RefuseSteady(s, s1, c, r, w, bytes);
    EnqueueSteady(s, s1, c, r, w, bytes, g0, rd0);
  }

  lemma RefuseSteady(s: State, s1: State, c: string, r: string, w: Wid, bytes: nat)
    requires Steady(s, s1) && w !in s1.waiters
    ensures Steady(s, Refuse(s1, c, r, w, bytes))
  {
    hide Steady;
    var m := Refuse(s1, c, r, w, bytes);
    NewWaiterSteady(s1, m, w, Waiter(c, r, bytes, Rejected, false));
    assert NoComeback(s, s1, m);
    SteadyThen(s, s1, m);
  }

  lemma EnqueueSteady(s: State, s1: State, c: string, r: string, w: Wid, bytes: nat, g0: Group, rd0: Reader)
    requires Steady(s, s1) && w !in s1.waiters
    requires (c in s.groups <==> c in s1.groups) && (Seated(s, c, r) <==> Seated(s1, c, r))
    requires c !in s.groups ==> g0.readers == map[]
    ensures Steady(s, Enqueue(s1, c, r, w, bytes, g0, rd0))
  {
    hide Steady, Forget;
    var m := Enqueue(s1, c, r, w, bytes, g0, rd0);
    NewWaiterSteady(s1, m, w, Waiter(c, r, bytes, Queued, false));
    assert forall d, q :: Seated(m, d, q) ==> Seated(s1, d, q) || (d == c && q == r);
    assert NoComeback(s, s1, m);
    SteadyThen(s, s1, m);
  }

  lemma DeleteSteady(s: State, c: string, order: seq<Wid>, env: Env)
    requires Settled(Discard(s, c)) && DropRun(Discard(s, c), c, order, env)
    ensures Steady(s, Disown(AfterDrops(Discard(s, c), c, order, env), c))
  {
    hide Core, NoIdle, ForgetCommunity;
    var d := Discard(s, c);
    var s1 := AfterDrops(d, c, order, env);
    DropsSteady(d, c, order, env);
    hide AfterDrops, DropRun;
    SameWaitersSteady(s, d);
    var m := Disown(s1, c);
    SameWaitersSteady(s1, m);
    ShrinksComeback(d, s1, m);
    hide Steady;
    SteadyThen(d, s1, m);
    assert Shrinks(d, m);
    ShrinksComeback(s, d, m);
    SteadyThen(s, d, m);
  }

  predicate Finishes(s: State, e: Event) { e.Done? && e.w in s.waiters && s.waiters[e.w].phase.Running? }

  /** Until workers are handed out, only a release starts or finishes anything. */
  lemma PreparedSteady(s: State, e: Event, env: Env)
    requires Enabled(s, e, env) && !Finishes(s, e)
    ensures Steady(s, Prepared(s, e, env))
  {
    hide Core, NoIdle, Steady, Saturated;
    match e
    case Arrive(c, r, w, payload, now, victims) =>
      if TakesLock(s.budget, e) {
        ArriveSteady(s, c, r, w, RequestBytes(payload), now, victims, env);
      } else {
        SameWaitersSteady(s, s);
      }
    case Wake(w, contextDone) =>
      if s.waiters[w].phase.Queued? {
        QueuedIsPlaced(s, w);
        LeaveSteady(s, w, if contextDone then Cancelled else Expired, false, env);
      } else {
        SameWaitersSteady(s, s);
      }
    case Done(w, elapsed) => SameWaitersSteady(s, s);
    case Delete(c, order) => DeleteSteady(s, c, order, env);
  }

  /** Whoever stays is credited with what its work took. */
  ghost predicate Pays(s: State, m: State, e: Event) {
    (forall c :: c in s.groups && c in m.groups ==> Credit(m, c) >= Credit(s, c) + Worked(s, e, c))
    && (forall c, r :: Seated(s, c, r) && Seated(m, c, r) ==> ReaderCredit(m, c, r) >= ReaderCredit(s, c, r) + WorkedBy(s, e, c, r))
  }

  lemma SteadyPays(s: State, m: State, e: Event)
    requires Steady(s, m) && !Finishes(s, e)
    ensures Prepares(s, m, Busy(s, e)) && Pays(s, m, e)
  {
    hide Credit, ReaderCredit, AllLived, RunningKept, Onward;
    SteadyPrepares(s, m);
  }

  lemma FinishPays(s: State, e: Event, env: Env)
    requires Settled(s) && Finishes(s, e) && e.Done?
    ensures IsRunning(s, e.w) && Prepares(s, Finish(s, e.w, e.elapsed, env), Busy(s, e)) && Pays(s, Finish(s, e.w, e.elapsed, env), e)
  {
    hide Core, NoIdle, Credit, ReaderCredit, AllLived, Standing, Starts, Finish;
    FinishOnward(s, e.w, e.elapsed, env);
  }

  lemma PreparedPrepares(s: State, e: Event, env: Env)
    requires Enabled(s, e, env)
    ensures Prepares(s, Prepared(s, e, env), Busy(s, e)) && Pays(s, Prepared(s, e, env), e)
  {
    hide Core, NoIdle, Steady, Prepares, Pays, Finish, Busy;
    if Finishes(s, e) {
      FinishPays(s, e, env);
    } else {
      PreparedSteady(s, e, env);
      SteadyPays(s, Prepared(s, e, env), e);
    }
  }

  lemma QueuedIsPlaced(s: State, w: Wid)
    requires Core(s) && w in s.waiters && s.waiters[w].phase.Queued?
    ensures InQueue(s, w)
  {
    hide Tally, OrdersOk, HistoryOk;
  }

  lemma PreparedToNext(s: State, e: Event, env: Env)
    requires Enabled(s, e, env)
    ensures var m, s' := Prepared(s, e, env), Next(s, e, env); Onward(m, s') && Shrinks(m, s')
  {
    hide Core, NoIdle, Next, Prepared, Enabled, Dispatch;
    NextFromPrepared(s, e, env);
    var m := Prepared(s, e, env);
    if Next(s, e, env) == m {
      SameWaitersSteady(m, m);
      SteadyIsOnward(m, m);
    } else {
      DispatchOnward(m, env);
    }
  }

  /** Cost accounting for one event: clocks only rise, and for a group or reader that stays,
      service less the charges still running rises by at least the time its work took. */
  lemma NextOnward(s: State, e: Event, env: Env)
    requires Enabled(s, e, env)
    ensures Onward(s, Next(s, e, env)) && Pays(s, Next(s, e, env), e)
  {
    hide Core, NoIdle, Credit, Next, Prepared, Enabled, ReaderCredit, Standing;
    var m, s' := Prepared(s, e, env), Next(s, e, env);
    PreparedPrepares(s, e, env);
    PreparedToNext(s, e, env);
    ShrinksComeback(s, m, s');
    OnwardThen(s, m, s');
  }

  /** While `x` waits for its first worker, one event starts a competitor `y` at most once,
      and then `y`'s standing is at most 1 ms past `x`'s service. */
  lemma NextOvertakes(s: State, e: Event, env: Env, x: string, y: string)
    requires Enabled(s, e, env) && x != y && x != ""
    requires WaitsIdle(s, x) && y in s.groups && WaitsIdle(Next(s, e, env), x) && y in Next(s, e, env).groups
    ensures var s' := Next(s, e, env);
            s'.groups[x].service == s.groups[x].service
            && (Starts(s', y) == Starts(s, y)
                || (Starts(s', y) == Starts(s, y) + 1 && Standing(s', y) <= s.groups[x].service + MILLISECOND))
  {
    hide Core, NoIdle, Credit, Next, Prepared, Onward, Dispatch;
    BusyIsNotIdle(s, e, x);
    hide Enabled;
    var m, s' := Prepared(s, e, env), Next(s, e, env);
    PreparedPrepares(s, e, env);
    NextFromPrepared(s, e, env);
    if s' != m {
      DispatchOvertakes(m, env, x, y);
      ActiveNotNegative(m, y);
    }
  }

  lemma BusyIsNotIdle(s: State, e: Event, x: string)
    requires Core(s) && WaitsIdle(s, x) && x != ""
    ensures Busy(s, e) != x
  {
    if Busy(s, e) != "" {
      RunningCounts(s, e.w);
    }
  }

  // ---------- Bounded overtaking ----------

  /** All along the run, `x` waits for its first worker and `y` stays present. */
  ghost predicate Throughout(s: State, trace: Trace, x: string, y: string)
    requires Run(s, trace)
    decreases |trace|
  {
    WaitsIdle(s, x) && y in s.groups
    && (trace == [] || Throughout(Next(s, trace[0].0, trace[0].1), trace[1..], x, y))
  }

  /** A competitor that stays present starts at most
      (service of x - standing of y) / 1 ms + 1 times before `x` gets its first worker. */
  lemma {:induction false} BoundedOvertaking(s: State, trace: Trace, x: string, y: string)
    requires Inv(s) && Run(s, trace) && x != y && x != "" && Throughout(s, trace, x, y)
    ensures x in s.groups && y in s.groups
    ensures var n := Starts(After(s, trace), y) - Starts(s, y);
            n == 0 || (n > 0 && MILLISECOND * (n - 1) <= s.groups[x].service - Standing(s, y))
    decreases |trace|
  {
    hide Core, NoIdle, Saturated, Next, Enabled, Starts, WaitsIdle, Standing, Credit, Inv;
    PresentHere(s, trace, x, y);
    if trace != [] {
      var s' := Next(s, trace[0].0, trace[0].1);
      PresentHere(s', trace[1..], x, y);
      NextOvertakes(s, trace[0].0, trace[0].1, x, y);
      NextOnward(s, trace[0].0, trace[0].1);
      BoundedOvertaking(s', trace[1..], x, y);
    }
  }

  lemma PresentHere(s: State, trace: Trace, x: string, y: string)
    requires Run(s, trace) && Throughout(s, trace, x, y)
    ensures WaitsIdle(s, x) && x in s.groups && y in s.groups
  {
  }

  // ---------- Cost accounting over runs ----------

  ghost predicate Stays(s: State, trace: Trace, c: string)
    requires Run(s, trace)
    decreases |trace|
  {
    c in s.groups && (trace == [] || Stays(Next(s, trace[0].0, trace[0].1), trace[1..], c))
  }

  ghost function WorkedOver(s: State, trace: Trace, c: string): nat
    requires Run(s, trace)
    decreases |trace|
  {
    if trace == [] then 0
    else Worked(s, trace[0].0, c) + WorkedOver(Next(s, trace[0].0, trace[0].1), trace[1..], c)
  }

  /** Whoever stays pays for all of its work: no clamp ever forgives any of it. */
  lemma {:induction false} WorkIsPaidFor(s: State, trace: Trace, c: string)
    requires Inv(s) && Run(s, trace) && Stays(s, trace, c)
    ensures c in s.groups && c in After(s, trace).groups
    ensures Credit(After(s, trace), c) >= Credit(s, c) + WorkedOver(s, trace, c)
    ensures s.clock <= After(s, trace).clock && s.groups[c].clock <= After(s, trace).groups[c].clock
    decreases |trace|
  {
    hide Core, NoIdle, Saturated, Next, Enabled, Starts, Standing, Credit, Inv, Worked;
    if trace != [] {
      var s' := Next(s, trace[0].0, trace[0].1);
      assert c in s'.groups by { StaysHere(s', trace[1..], c); }
      NextOnward(s, trace[0].0, trace[0].1);
      WorkIsPaidFor(s', trace[1..], c);
    }
  }

  ghost predicate ReaderStays(s: State, trace: Trace, c: string, r: string)
    requires Run(s, trace)
    decreases |trace|
  {
    Seated(s, c, r) && (trace == [] || ReaderStays(Next(s, trace[0].0, trace[0].1), trace[1..], c, r))
  }

  ghost function WorkedByOver(s: State, trace: Trace, c: string, r: string): nat
    requires Run(s, trace)
    decreases |trace|
  {
    if trace == [] then 0
    else WorkedBy(s, trace[0].0, c, r) + WorkedByOver(Next(s, trace[0].0, trace[0].1), trace[1..], c, r)
  }

  /** So does every reader. */
  lemma {:induction false} ReaderWorkIsPaidFor(s: State, trace: Trace, c: string, r: string)
    requires Inv(s) && Run(s, trace) && ReaderStays(s, trace, c, r)
    ensures Seated(s, c, r) && Seated(After(s, trace), c, r)
    ensures ReaderCredit(After(s, trace), c, r) >= ReaderCredit(s, c, r) + WorkedByOver(s, trace, c, r)
    decreases |trace|
  {
    hide Core, NoIdle, Saturated, Next, Enabled, Starts, Standing, Credit, ReaderCredit, Inv, WorkedBy, Seated, Onward;
    if trace != [] {
      var s' := Next(s, trace[0].0, trace[0].1);
      ReaderStaysHere(s', trace[1..], c, r);
      NextOnward(s, trace[0].0, trace[0].1);
      ReaderWorkIsPaidFor(s', trace[1..], c, r);
    }
  }

  lemma ReaderStaysHere(s: State, trace: Trace, c: string, r: string)
    requires Run(s, trace) && ReaderStays(s, trace, c, r)
    ensures Seated(s, c, r)
  {
  }

  lemma StaysHere(s: State, trace: Trace, c: string)
    requires Run(s, trace) && Stays(s, trace, c)
    ensures c in s.groups
  {
  }

  /** The clamp in `Settle` never acts: service always covers what is still running. */
  lemma ClampNeverActs(s: State, w: Wid, elapsed: int)
    requires Inv(s) && w in s.waiters && s.waiters[w].phase.Running?
    ensures IsRunning(s, w)
    ensures var x := s.waiters[w];
            s.groups[x.cid].service + (Max(MILLISECOND, elapsed) - x.phase.charged) >= MILLISECOND
            && s.groups[x.cid].readers[x.rid].service + (Max(MILLISECOND, elapsed) - x.phase.readerCharged) >= MILLISECOND
  {
    hide Tally, OrdersOk, HistoryOk;
    RunningCounts(s, w);
    var x := s.waiters[w];
    assert ReaderOk(s.waiters, x.cid, x.rid, s.groups[x.cid].readers[x.rid]);
    TallyAtLeast(s.waiters, GroupCharge(x.cid));
    TallyAtLeast(s.waiters, ReaderCharge(x.cid, x.rid));
  }

  // ---------- What becomes of a request ----------

  lemma LivedThen(s: State, m: State, s': State)
    requires AllLived(s, m) && AllLived(m, s')
    ensures AllLived(s, s')
  {
  }

  /** Outcomes are final over every run: a channel once closed stays closed, running work
      can only complete, and a request that ended never ends again. */
  lemma {:induction false} OutcomesAreFinal(s: State, trace: Trace)
    requires Inv(s) && Run(s, trace)
    ensures AllLived(s, After(s, trace))
    decreases |trace|
  {
    hide Core, NoIdle, Saturated, Next, Enabled, Inv, Credit, Standing, ReaderCredit;
    if trace != [] {
      var s' := Next(s, trace[0].0, trace[0].1);
      NextOnward(s, trace[0].0, trace[0].1);
      OutcomesAreFinal(s', trace[1..]);
      hide AllLived;
      LivedThen(s, s', After(s', trace[1..]));
    }
  }

  /** Releasing twice returns one worker. */
  lemma DoubleRelease(s: State, w: Wid, elapsed: int, env: Env, again: int, env': Env)
    requires Inv(s) && w in s.waiters
    ensures w in Release(s, w, elapsed, env).waiters
    ensures Release(Release(s, w, elapsed, env), w, again, env') == Release(s, w, elapsed, env)
    ensures Release(s, w, elapsed, env).completed == s.completed + (if s.waiters[w].phase.Running? then 1 else 0)
  {
    hide Core, NoIdle, Credit, Standing, ReaderCredit, Dispatch;
    if s.waiters[w].phase.Running? {
      FinishKeeps(s, w, elapsed, env);
      var m := Finish(s, w, elapsed, env);
      assert m.waiters[w].phase.Completed? && m.completed == s.completed + 1;
      hide Finish;
      DispatchOnward(m, env);
      DispatchCompletesNothing(m, env);
    }
  }

  predicate Releases(e: Event, w: Wid) { e.Done? && e.w == w }

  /** Whoever holds a worker keeps it until it is released itself. */
  lemma NextKeepsRunning(s: State, e: Event, env: Env, w: Wid)
    requires Enabled(s, e, env) && w in s.waiters && s.waiters[w].phase.Running? && !Releases(e, w)
    ensures w in Next(s, e, env).waiters && Next(s, e, env).waiters[w] == s.waiters[w]
  {
    hide Core, NoIdle, Saturated, Dispatch, Next;
    NextFromPrepared(s, e, env);
    PreparedKeepsRunning(s, e, env, w);
    var m := Prepared(s, e, env);
    if Next(s, e, env) != m { DispatchKeepsRunning(m, env); }
  }

  lemma PreparedKeepsRunning(s: State, e: Event, env: Env, w: Wid)
    requires Enabled(s, e, env) && w in s.waiters && s.waiters[w].phase.Running? && !Releases(e, w)
    ensures var m := Prepared(s, e, env); w in m.waiters && m.waiters[w] == s.waiters[w]
  {
    hide Core, NoIdle, Saturated, Remember, Credit, ReaderCredit, AllLived;
    if !Finishes(s, e) { PreparedSteady(s, e, env); }
  }

  /** Nobody but the acquirer releases its request. */
  predicate LeavesToIt(trace: Trace, w: Wid) {
    forall i :: 0 <= i < |trace| ==> !Releases(trace[i].0, w)
  }

  lemma {:induction false} KeepsRunning(s: State, trace: Trace, w: Wid)
    requires Inv(s) && Run(s, trace) && LeavesToIt(trace, w) && w in s.waiters && s.waiters[w].phase.Running?
    ensures w in After(s, trace).waiters && After(s, trace).waiters[w] == s.waiters[w]
    decreases |trace|
  {
    hide Core, NoIdle, Saturated, Next, Enabled;
    if trace != [] {
      NextKeepsRunning(s, trace[0].0, trace[0].1, w);
      KeepsRunning(Next(s, trace[0].0, trace[0].1), trace[1..], w);
    }
  }

  /** A context that ends while its request is dispatched: waking up takes nothing from it any more,
      it holds its worker whatever happens meanwhile, its release gives that one worker back, and
      nothing it does later gives back another. */
  lemma CancelledDispatchReturnsItsWorker(s: State, w: Wid, contextDone: bool, trace: Trace, elapsed: int, env: Env, later: Trace,
                                          again: int, env': Env)
    requires Inv(s) && w in s.waiters && s.waiters[w].phase.Running?
    requires Run(s, trace) && LeavesToIt(trace, w)
    ensures GiveUp(s, w, contextDone, env) == s
    ensures var m := After(s, trace);
            IsRunning(m, w) && m.waiters[w] == s.waiters[w]
            && Finish(m, w, elapsed, env).active == m.active - 1 && Finish(m, w, elapsed, env).completed == m.completed + 1
            && Settled(Finish(m, w, elapsed, env))
            && Release(m, w, elapsed, env) == Dispatch(Finish(m, w, elapsed, env), env)
            && var s' := Release(m, w, elapsed, env);
               w in s'.waiters && s'.waiters[w].phase.Completed?
               && (Run(s', later) ==> w in After(s', later).waiters && Release(After(s', later), w, again, env') == After(s', later))
  {
    hide Core, NoIdle, Saturated, Dispatch, Run, Remember, Credit, ReaderCredit, Standing;
    KeepsRunning(s, trace, w);
    var m := After(s, trace);
    FinishKeeps(m, w, elapsed, env);
    DispatchOnward(Finish(m, w, elapsed, env), env);
    var s' := Release(m, w, elapsed, env);
    if Run(s', later) { OutcomesAreFinal(s', later); }
  }

  lemma PopCompletesNothing(s: State, c: string, r: string, env: Env)
    requires CanPop(s, c, r)
    ensures Pop(s, c, r, env).completed == s.completed
  {
    hide Remember, Without;
  }

  lemma {:induction false} DispatchCompletesNothing(s: State, env: Env)
    requires Settled(s)
    ensures Dispatch(s, env).completed == s.completed
    decreases s.waiting
  {
    hide Core, NoIdle, Pop;
    if CanDispatch(s) {
      ReadyMeansWaiting(s);
      PopCompletesNothing(s, NextGroup(s), NextReader(s, NextGroup(s)), env);
      DispatchCompletesNothing(DispatchOne(s, env), env);
    }
  }
}

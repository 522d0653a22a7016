/** Fairness among the readers of one community: who is served next, and how often a reader can be
  overtaken. It is what SchedulerTheorems says of communities, one level down.
 */
module SchedulerReaders {
  import opened SchedulerState
  import opened SchedulerSteps
  import opened SchedulerInvariant
  import opened SchedulerEvents
  import opened SchedulerRuns
  import opened SchedulerTheorems

  // ---------- Whose turn it is ----------

  /** A worker goes to the waiting community, and in it to the waiting reader, with the fewest running
      requests, of those the one with the least service, of those the one whose turn is earliest. */
  lemma TurnIsFair(s: State)
    requires Core(s) && CanDispatch(s)
    ensures var c := NextGroup(s);
            FirstGroup(s.groups, c) && FirstReader(s.groups[c], NextReader(s, c))
  {
    hide Core;
    FirstAmongGroups(s.groups, NextGroup(s));
    FirstAmongReaders(s.groups[NextGroup(s)], NextReader(s, NextGroup(s)));
  }

  /** What becomes of the request at the front of that reader's queue; nobody else's record changes. */
  lemma TurnServesTheFront(s: State, env: Env)
    requires Settled(s) && CanDispatch(s)
    ensures var c := NextGroup(s); var w := s.groups[c].readers[NextReader(s, c)].queue[0]; var s' := DispatchOne(s, env);
            w in s.waiters && w in s'.waiters && s'.waiters == s.waiters[w := s'.waiters[w]] && s'.waiters[w].closed
            && match env.fate(w)
               case Go => s'.waiters[w].phase == Running(s.groups[c].estimate, s.groups[c].readers[NextReader(s, c)].estimate)
               case ContextDone => s'.waiters[w].phase == Cancelled
               case PastDeadline => s'.waiters[w].phase == Expired
  {
    hide Core, NoIdle, Pop;
    var c := NextGroup(s);
    PopServes(s, c, NextReader(s, c), env);
  }

  lemma PopServes(s: State, c: string, r: string, env: Env)
    requires CanPop(s, c, r)
    ensures var w := s.groups[c].readers[r].queue[0]; var s' := Pop(s, c, r, env);
            w in s'.waiters && s'.waiters == s.waiters[w := s'.waiters[w]] && s'.waiters[w].closed
            && match env.fate(w)
               case Go => s'.waiters[w].phase == Running(s.groups[c].estimate, s.groups[c].readers[r].estimate)
               case ContextDone => s'.waiters[w].phase == Cancelled
               case PastDeadline => s'.waiters[w].phase == Expired
  {
    hide NextTurn, Tidy, Without;
    ServeSeated(s, c, r, env);
    var m := Serve(s, c, r, env);
    TurnsKeepWaiters(m, c, r, env);
  }

  lemma TurnsKeepWaiters(s: State, c: string, r: string, env: Env)
    requires Seated(s, c, r)
    ensures Seated(NextTurn(s, c, r), c, r) && Tidy(NextTurn(s, c, r), c, r, env).waiters == s.waiters
  {
    hide Remember;
  }

  /** Every other turn with work waiting comes before this one's. */
  ghost predicate LastInLine(s: State, c: string, r: string) {
    (Seated(s, c, r) && s.groups[c].readers[r].queue != [] ==>
       forall q :: q in s.groups[c].readers && q != r && s.groups[c].readers[q].queue != [] ==>
         s.groups[c].readers[q].order < s.groups[c].readers[r].order)
    && (c in s.groups && s.groups[c].waiting > 0 ==>
          forall d :: d in s.groups && d != c && s.groups[d].waiting > 0 ==> s.groups[d].order < s.groups[c].order)
  }

  /** Whoever had a turn and has more work goes to the back, the community and its reader. */
  lemma TurnGoesToTheBack(s: State, env: Env)
    requires Settled(s) && CanDispatch(s)
    ensures var c := NextGroup(s); LastInLine(DispatchOne(s, env), c, NextReader(s, c))
  {
    hide Core, NoIdle, Serve, NextTurn, Tidy, LastInLine;
    var c := NextGroup(s);
    var r := NextReader(s, c);
    OrdersBounded(s, c);
    ServeSeated(s, c, r, env);
    ServeOthers(s, c, r, env);
    TurnBack(Serve(s, c, r, env), c, r);
    TidyBack(NextTurn(Serve(s, c, r, env), c, r), c, r, env);
  }

  ghost predicate TurnsWithin(s: State, c: string, order: int) {
    c in s.groups && (forall d :: d in s.groups && s.groups[d].waiting > 0 ==> s.groups[d].order <= order)
    && forall q :: q in s.groups[c].readers && s.groups[c].readers[q].queue != [] ==> s.groups[c].readers[q].order <= order
  }

  lemma OrdersBounded(s: State, c: string)
    requires Core(s) && c in s.groups
    ensures TurnsWithin(s, c, s.order)
  {
    hide Tally, WaitersOk, GroupsOk, HistoryOk;
    assert forall d :: d in s.groups && s.groups[d].waiting > 0 ==> d in ReadyGroups(s.groups) && ReadyGroups(s.groups)[d].order == s.groups[d].order;
    assert forall q :: q in s.groups[c].readers && s.groups[c].readers[q].queue != [] ==>
             q in ReadyReaders(s.groups[c]) && ReadyReaders(s.groups[c])[q].order == s.groups[c].readers[q].order;
  }

  /** Serving somebody gives nobody a later turn. */
  lemma ServeOthers(s: State, c: string, r: string, env: Env)
    requires CanPop(s, c, r) && TurnsWithin(s, c, s.order)
    ensures var m := Serve(s, c, r, env);
            m.order == s.order && (forall d :: d in m.groups && d != c && m.groups[d].waiting > 0 ==> m.groups[d].order <= s.order)
            && c in m.groups
            && forall q :: q in m.groups[c].readers && q != r && m.groups[c].readers[q].queue != [] ==> m.groups[c].readers[q].order <= s.order
  {
    hide Without;
  }

  lemma TurnBack(s: State, c: string, r: string)
    requires Seated(s, c, r)
    requires forall d :: d in s.groups && d != c && s.groups[d].waiting > 0 ==> s.groups[d].order <= s.order
    requires forall q :: q in s.groups[c].readers && q != r && s.groups[c].readers[q].queue != [] ==> s.groups[c].readers[q].order <= s.order
    ensures Seated(NextTurn(s, c, r), c, r) && LastInLine(NextTurn(s, c, r), c, r)
  {
  }

  lemma TidyBack(s: State, c: string, r: string, env: Env)
    requires Seated(s, c, r) && LastInLine(s, c, r)
    ensures LastInLine(Tidy(s, c, r, env), c, r)
  {
    hide Remember;
  }

  // ---------- One turn, reader by reader ----------

  ghost predicate SeatStarted(s: State, s': State, c: string, r: string) {
    Seated(s, c, r) && Seated(s', c, r) && ReaderCredit(s', c, r) == ReaderCredit(s, c, r)
    && ReaderStarts(s', c, r) == ReaderStarts(s, c, r) + 1
    && s'.groups[c].readers[r].active == s.groups[c].readers[r].active + 1
  }

  /** A turn moves only the reader whose turn it is. */
  ghost predicate SeatTurn(s: State, s': State, c: string, r: string) {
    Shrinks(s, s')
    && (forall d, q :: Seated(s', d, q) && !(d == c && q == r) ==>
          SeatSame(s, s', d, q) && s'.groups[d].readers[q].queue == s.groups[d].readers[q].queue)
    && (Seated(s', c, r) ==> s.groups[c].readers[r].queue != [] && (SeatSame(s, s', c, r) || SeatStarted(s, s', c, r)))
  }

  lemma StartSeats(s: State, c: string, r: string)
    requires CanPop(s, c, r)
    ensures var s' := Start(s, c, r);
            Shrinks(s, s') && SeatStarted(s, s', c, r)
            && forall d, q :: Seated(s', d, q) && !(d == c && q == r) ==>
                 SeatSame(s, s', d, q) && s'.groups[d].readers[q].queue == s.groups[d].readers[q].queue
  {
    hide Tally;
    var s' := Start(s, c, r);
    var w := s.groups[c].readers[r].queue[0];
    TallyUpdate(s.waiters, w, s'.waiters[w]);
  }

  lemma DequeueSeats(s: State, w: Wid, p: Phase, close: bool)
    requires Core(s) && InQueue(s, w) && Leaving(p)
    ensures var s' := Dequeue(s, w, p, close); SeatTurn(s, s', s.waiters[w].cid, s.waiters[w].rid)
  {
    hide Core, Without, SeatSame, Steady;
    var s' := Dequeue(s, w, p, close);
    DequeueSteady(s, w, p, close);
    SteadySeats(s, s');
  }

  lemma SteadySeats(s: State, s': State)
    requires Steady(s, s')
    ensures forall c, r :: Seated(s, c, r) && Seated(s', c, r) ==> SeatSame(s, s', c, r)
  {
    hide SeatSame;
  }

  lemma ServeSeats(s: State, c: string, r: string, env: Env)
    requires Core(s) && CanPop(s, c, r)
    ensures SeatTurn(s, Serve(s, c, r, env), c, r)
  {
    hide Core, SeatSame, SeatStarted, Shrinks, Dequeue, Start;
    var w := s.groups[c].readers[r].queue[0];
    match env.fate(w)
    case Go => StartSeats(s, c, r);
    case ContextDone => DequeueSeats(s, w, Cancelled, true);
    case PastDeadline => DequeueSeats(s, w, Expired, true);
  }

  /** Turns and retirements leave every queue that stays as it was. */
  lemma TidyQueues(s: State, c: string, r: string, env: Env)
    requires Seated(s, c, r)
    ensures var s' := Tidy(NextTurn(s, c, r), c, r, env);
            forall d, q :: Seated(s', d, q) ==> Seated(s, d, q) && s'.groups[d].readers[q].queue == s.groups[d].readers[q].queue
  {
    hide Remember;
  }

  lemma PopSeats(s: State, c: string, r: string, env: Env)
    requires Core(s) && CanPop(s, c, r)
    ensures SeatTurn(s, Pop(s, c, r, env), c, r)
  {
    hide Core, Serve, NextTurn, Tidy, Steady, SeatSame, SeatStarted;
    var m1 := Serve(s, c, r, env);
    ServeSeats(s, c, r, env);
    ServeSeated(s, c, r, env);
    var m2 := NextTurn(m1, c, r);
    NextTurnSteady(m1, c, r);
    assert Seated(m2, c, r) by { NextTurnSeated(m1, c, r); }
    TidySteady(m2, c, r, env);
    TidyQueues(m1, c, r, env);
    var s' := Pop(s, c, r, env);
    ShrinksComeback(m1, m2, s');
    SteadyThen(m1, m2, s');
    SteadySeats(m1, s');
    ThenSame(s, m1, s', c, r);
  }

  lemma ServeSeated(s: State, c: string, r: string, env: Env)
    requires CanPop(s, c, r)
    ensures Seated(Serve(s, c, r, env), c, r)
  {
    hide Without;
  }

  lemma NextTurnSeated(s: State, c: string, r: string)
    requires Seated(s, c, r)
    ensures Seated(NextTurn(s, c, r), c, r)
  {
  }

  lemma ThenSame(s: State, m: State, s': State, c: string, r: string)
    requires SeatTurn(s, m, c, r) && Shrinks(m, s')
    requires forall d, q :: Seated(s', d, q) ==> SeatSame(m, s', d, q) && s'.groups[d].readers[q].queue == m.groups[d].readers[q].queue
    ensures SeatTurn(s, s', c, r)
  {
    hide ReaderCredit, ReaderStarts;
  }

  // ---------- Overtaking within one dispatch ----------

  /** The reader has work queued and no worker. */
  ghost predicate ReaderWaits(s: State, c: string, x: string) {
    Seated(s, c, x) && s.groups[c].readers[x].queue != [] && s.groups[c].readers[x].active == 0
  }

  /** `y` started once, from no worker and with no more service than `x` had. */
  ghost predicate SeatOvertook(s: State, s': State, c: string, x: string, y: string) {
    Seated(s, c, x) && Seated(s, c, y) && Seated(s', c, y)
    && s.groups[c].readers[y].active == 0 && s.groups[c].readers[y].service <= s.groups[c].readers[x].service
    && ReaderStarts(s', c, y) == ReaderStarts(s, c, y) + 1
    && ReaderCredit(s', c, y) == ReaderCredit(s, c, y) && s'.groups[c].readers[y].active == 1
  }

  lemma ReaderActiveNotNegative(s: State, c: string, r: string)
    requires Core(s) && Seated(s, c, r)
    ensures s.groups[c].readers[r].active >= 0
    ensures s.groups[c].readers[r].active == 0 ==> ReaderCredit(s, c, r) == s.groups[c].readers[r].service
  {
    hide Tally, OrdersOk, HistoryOk, GroupOk, QueueOk;
    assert ReaderOk(s.waiters, c, r, s.groups[c].readers[r]);
    TallyAtLeast(s.waiters, ReaderActive(c, r));
    if s.groups[c].readers[r].active == 0 { TallyNothing(s.waiters, ReaderCharge(c, r)); }
  }

  lemma TurnReaderWaits(s: State, m: State, c: string, x: string, d: string, r: string)
    requires Core(s) && SeatTurn(s, m, d, r) && ReaderWaits(m, c, x)
    ensures ReaderWaits(s, c, x) && s.groups[c].readers[x].service == m.groups[c].readers[x].service
  {
    hide Core, ReaderCredit, ReaderStarts;
    assert Seated(s, c, x);
    ReaderActiveNotNegative(s, c, x);
  }

  lemma TurnReaderOvertakes(s: State, m: State, f: State, c: string, x: string, y: string, d: string, r: string)
    requires Core(s) && SeatTurn(s, m, d, r) && d in s.groups && IsLeast(ReadyReaders(s.groups[d]), r)
    requires ReaderWaits(s, c, x) && Seated(m, c, x) && s.groups[c].readers[x].service == m.groups[c].readers[x].service
    requires x != y && Seated(m, c, y) && (SeatSame(m, f, c, y) || SeatOvertook(m, f, c, x, y))
    requires Core(m)
    ensures SeatSame(s, f, c, y) || SeatOvertook(s, f, c, x, y)
  {
    hide Core, ReaderCredit, ReaderStarts;
    assert Seated(s, c, y);
    ReaderActiveNotNegative(s, c, y);
    assert x in ReadyReaders(s.groups[c]);
  }

  /** While `x` waits for its first worker, one dispatch starts a competitor of the same community at
      most once, and only one without a worker whose service is no more than `x`'s. */
  lemma {:induction false} DispatchReaderOvertakes(s: State, env: Env, c: string, x: string, y: string)
    requires Settled(s) && x != y && ReaderWaits(Dispatch(s, env), c, x) && Seated(Dispatch(s, env), c, y)
    ensures ReaderWaits(s, c, x) && Seated(s, c, y)
    ensures s.groups[c].readers[x].service == Dispatch(s, env).groups[c].readers[x].service
    ensures SeatSame(s, Dispatch(s, env), c, y) || SeatOvertook(s, Dispatch(s, env), c, x, y)
    decreases s.waiting
  {
    if CanDispatch(s) {
      hide Core, NoIdle, Tally, Pop, SeatTurn, SeatSame, SeatOvertook, IsLeast;
      ReadyMeansWaiting(s);
      var d := NextGroup(s);
      var r := NextReader(s, d);
      PopSeats(s, d, r, env);
      var m := DispatchOne(s, env);
      DispatchReaderOvertakes(m, env, c, x, y);
      TurnReaderWaits(s, m, c, x, d, r);
      SeatTurnShrinks(s, m, d, r, c, y);
      assert d in s.groups;
      TurnReaderOvertakes(s, m, Dispatch(m, env), c, x, y, d, r);
    }
  }

  lemma SeatTurnShrinks(s: State, m: State, d: string, r: string, c: string, y: string)
    requires SeatTurn(s, m, d, r) && Seated(m, c, y)
    ensures Seated(s, c, y)
  {
  }

  // ---------- One event ----------

  /** The reader whose work an event finishes. */
  predicate FinishesFor(s: State, e: Event, c: string, r: string) {
    Finishes(s, e) && s.waiters[e.w].cid == c && s.waiters[e.w].rid == r
  }

  /** Until workers are handed out nothing starts, and only the reader of finished work changes. */
  ghost predicate SeatsPrepared(s: State, m: State, e: Event) {
    forall c, r :: Seated(s, c, r) && Seated(m, c, r) ==>
      ReaderStarts(m, c, r) == ReaderStarts(s, c, r) && (!FinishesFor(s, e, c, r) ==> SeatSame(s, m, c, r))
  }

  lemma CompleteSeats(s: State, w: Wid, elapsed: int)
    requires IsRunning(s, w)
    ensures var m := Complete(s, w, elapsed);
            forall c, r :: Seated(s, c, r) && Seated(m, c, r) ==>
              ReaderStarts(m, c, r) == ReaderStarts(s, c, r)
              && (!(s.waiters[w].cid == c && s.waiters[w].rid == r) ==> SeatSame(s, m, c, r))
  {
    hide Tally, Settle;
    var m := Complete(s, w, elapsed);
    TallyUpdate(s.waiters, w, m.waiters[w]);
  }

  lemma FinishSeats(s: State, e: Event, env: Env)
    requires Settled(s) && Finishes(s, e)
    ensures IsRunning(s, e.w) && SeatsPrepared(s, Finish(s, e.w, e.elapsed, env), e)
  {
    hide Core, NoIdle, Complete, Tidy, ReaderCredit, ReaderStarts, Steady;
    RunningCounts(s, e.w);
    var m1, m := Complete(s, e.w, e.elapsed), Finish(s, e.w, e.elapsed, env);
    CompleteSeats(s, e.w, e.elapsed);
    CompleteSeated(s, e.w, e.elapsed);
    TidySteady(m1, s.waiters[e.w].cid, s.waiters[e.w].rid, env);
    SteadySeats(m1, m);
    ShrinksComeback(s, m1, m);
  }

  lemma CompleteSeated(s: State, w: Wid, elapsed: int)
    requires IsRunning(s, w)
    ensures Seated(Complete(s, w, elapsed), s.waiters[w].cid, s.waiters[w].rid)
  {
  }

  lemma PreparedSeats(s: State, e: Event, env: Env)
    requires Enabled(s, e, env)
    ensures SeatsPrepared(s, Prepared(s, e, env), e)
  {
    hide Core, NoIdle, Finish, Saturated, Steady;
    if Finishes(s, e) {
      FinishSeats(s, e, env);
    } else {
      PreparedSteady(s, e, env);
      hide Prepared;
      SteadySeats(s, Prepared(s, e, env));
    }
  }

  lemma WaitingIsNotFinishing(s: State, e: Event, c: string, x: string)
    requires Core(s) && ReaderWaits(s, c, x)
    ensures !FinishesFor(s, e, c, x)
  {
    hide Tally, OrdersOk, HistoryOk, GroupOk, QueueOk;
    if FinishesFor(s, e, c, x) {
      assert ReaderOk(s.waiters, c, x, s.groups[c].readers[x]);
      TallyAtLeast(s.waiters, ReaderActive(c, x));
    }
  }

  /** While `x` waits for its first worker, one event starts a competitor `y` of the same community at
      most once, and then `y`'s standing is at most 1 ms past `x`'s service. */
  lemma NextReaderOvertakes(s: State, e: Event, env: Env, c: string, x: string, y: string)
    requires Enabled(s, e, env) && x != y && ReaderWaits(s, c, x) && Seated(s, c, y)
    requires ReaderWaits(Next(s, e, env), c, x) && Seated(Next(s, e, env), c, y)
    ensures var s' := Next(s, e, env);
            s'.groups[c].readers[x].service == s.groups[c].readers[x].service
            && (ReaderStarts(s', c, y) == ReaderStarts(s, c, y)
                || (ReaderStarts(s', c, y) == ReaderStarts(s, c, y) + 1
                    && ReaderStanding(s', c, y) <= s.groups[c].readers[x].service + MILLISECOND))
  {
    hide Core, NoIdle, Saturated, ReaderCredit, ReaderStarts, Next, Prepared, Dispatch, FinishesFor;
    WaitingIsNotFinishing(s, e, c, x);
    var m, s' := Prepared(s, e, env), Next(s, e, env);
    PreparedSeats(s, e, env);
    NextFromPrepared(s, e, env);
    if s' != m {
      DispatchReaderOvertakes(m, env, c, x, y);
      ReaderActiveNotNegative(m, c, y);
    }
  }

  // ---------- Over runs ----------

  /** All along the run, `x` waits for its first worker and `y` stays present. */
  ghost predicate ReaderThroughout(s: State, trace: Trace, c: string, x: string, y: string)
    requires Run(s, trace)
    decreases |trace|
  {
    ReaderWaits(s, c, x) && Seated(s, c, y)
    && (trace == [] || ReaderThroughout(Next(s, trace[0].0, trace[0].1), trace[1..], c, x, y))
  }

  lemma ReadersHere(s: State, trace: Trace, c: string, x: string, y: string)
    requires Run(s, trace) && ReaderThroughout(s, trace, c, x, y)
    ensures ReaderWaits(s, c, x) && Seated(s, c, x) && Seated(s, c, y)
  {
  }

  /** Inside a community, a competitor that stays present starts at most
      (service of x - standing of y) / 1 ms + 1 times before `x` gets its first worker. */
  lemma {:induction false} BoundedReaderOvertaking(s: State, trace: Trace, c: string, x: string, y: string)
    requires Inv(s) && Run(s, trace) && x != y && ReaderThroughout(s, trace, c, x, y)
    ensures Seated(s, c, x) && Seated(s, c, y)
    ensures var n := ReaderStarts(After(s, trace), c, y) - ReaderStarts(s, c, y);
            n == 0 || (n > 0 && MILLISECOND * (n - 1) <= s.groups[c].readers[x].service - ReaderStanding(s, c, y))
    decreases |trace|
  {
    hide Core, NoIdle, Saturated, Next, Enabled, ReaderStarts, ReaderWaits, ReaderStanding, ReaderCredit, Inv, Seated, Standing, Starts, Pays;
    ReadersHere(s, trace, c, x, y);
    if trace != [] {
      var s' := Next(s, trace[0].0, trace[0].1);
      ReadersHere(s', trace[1..], c, x, y);
      NextReaderOvertakes(s, trace[0].0, trace[0].1, c, x, y);
      NextOnward(s, trace[0].0, trace[0].1);
      BoundedReaderOvertaking(s', trace[1..], c, x, y);
    }
  }
}

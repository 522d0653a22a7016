/** First come, first served, within each reader: whatever happens to others, a request never starts
    while one of the same reader that came before it still waits.
 */
module SchedulerQueues {
  import opened SchedulerState
  import opened SchedulerSteps
  import opened SchedulerInvariant
  import opened SchedulerEvents
  import opened SchedulerRuns
  import opened SchedulerTheorems

  predicate Ahead(q: seq<Wid>, w: Wid, v: Wid) { exists i, j :: 0 <= i < j < |q| && q[i] == w && q[j] == v }

  /** Both wait at one reader, `w` in front of `v`. */
  predicate Waits(s: State, w: Wid, v: Wid) {
    InQueue(s, w) && InQueue(s, v) && s.waiters[w].cid == s.waiters[v].cid && s.waiters[w].rid == s.waiters[v].rid
    && Ahead(s.groups[s.waiters[w].cid].readers[s.waiters[w].rid].queue, w, v)
  }

  predicate Ended(p: Phase) { p.Rejected? || p.Expired? || p.Cancelled? }

  /** Whoever was in front is still, unless it left the queue, or the one behind gave up. */
  ghost predicate Kept(s: State, s': State) {
    AllLived(s, s')
    && forall w, v :: Waits(s, w, v) ==>
         w in s'.waiters && v in s'.waiters && (!s'.waiters[w].phase.Queued? || Waits(s', w, v) || Ended(s'.waiters[v].phase))
  }

  lemma KeptThen(s: State, m: State, s': State)
    requires Kept(s, m) && Kept(m, s')
    ensures Kept(s, s')
  {
    hide InQueue;
    LivedThen(s, m, s');
    forall w, v | Waits(s, w, v)
      ensures w in s'.waiters && v in s'.waiters && (!s'.waiters[w].phase.Queued? || Waits(s', w, v) || Ended(s'.waiters[v].phase))
    {
      assert Lived(m.waiters[w], s'.waiters[w]) && Lived(m.waiters[v], s'.waiters[v]);
    }
  }

  // ---------- Steps ----------

  /** No queue loses anybody, and who is added comes last. */
  ghost predicate QueuesGrow(s: State, s': State) {
    (forall d, q :: Seated(s, d, q) && s.groups[d].readers[q].queue != [] ==>
       Seated(s', d, q) && s.groups[d].readers[q].queue <= s'.groups[d].readers[q].queue)
    && forall w :: w in s.waiters && s.waiters[w].phase.Queued? ==> w in s'.waiters && s'.waiters[w] == s.waiters[w]
  }

  lemma GrowKeeps(s: State, s': State)
    requires QueuesGrow(s, s') && AllLived(s, s')
    ensures Kept(s, s')
  {
    forall w, v | Waits(s, w, v) ensures w in s'.waiters && v in s'.waiters && Waits(s', w, v) {
      var d, r := s.waiters[w].cid, s.waiters[w].rid;
      var q, q' := s.groups[d].readers[r].queue, s'.groups[d].readers[r].queue;
      var i, j :| 0 <= i < j < |q| && q[i] == w && q[j] == v;
      assert q'[i] == w && q'[j] == v;
    }
  }

  lemma {:induction false} WithoutAhead(q: seq<Wid>, u: Wid, w: Wid, v: Wid)
    requires Ahead(q, w, v) && u != w && u != v
    ensures Ahead(Without(q, u), w, v)
  {
    var i, j :| 0 <= i < j < |q| && q[i] == w && q[j] == v;
    if q[0] == u {
      assert q[1..][i - 1] == w && q[1..][j - 1] == v;
    } else {
      var rest := Without(q[1..], u);
      if i > 0 {
        assert q[1..][i - 1] == w && q[1..][j - 1] == v;
        WithoutAhead(q[1..], u, w, v);
        var a, b :| 0 <= a < b < |rest| && rest[a] == w && rest[b] == v;
        assert Without(q, u)[a + 1] == w && Without(q, u)[b + 1] == v;
      } else {
        assert q[1..][j - 1] == v;
        WithoutHas(q[1..], u, v);
        var b :| 0 <= b < |rest| && rest[b] == v;
        assert Without(q, u)[0] == w && Without(q, u)[b + 1] == v;
      }
    }
  }

  lemma {:induction false} WithoutHas(q: seq<Wid>, u: Wid, v: Wid)
    requires v in q && u != v
    ensures v in Without(q, u)
  {
    if q[0] != u && q[0] != v { WithoutHas(q[1..], u, v); }
  }

  lemma DequeueOrder(s: State, w: Wid, p: Phase, close: bool)
    requires Core(s) && InQueue(s, w) && Leaving(p)
    ensures Kept(s, Dequeue(s, w, p, close))
  {
    hide Core, Without, Ahead;
    var s' := Dequeue(s, w, p, close);
    DequeueSteady(s, w, p, close);
    forall a, b | Waits(s, a, b)
      ensures a in s'.waiters && b in s'.waiters && (!s'.waiters[a].phase.Queued? || Waits(s', a, b) || Ended(s'.waiters[b].phase))
    {
      if a != w && b != w {
        var q := s.groups[s.waiters[a].cid].readers[s.waiters[a].rid].queue;
        AheadIsIn(q, a, b);
        if s.waiters[a].cid == s.waiters[w].cid && s.waiters[a].rid == s.waiters[w].rid {
          WithoutAhead(q, w, a, b);
          AheadIsIn(Without(q, w), a, b);
        }
      }
    }
  }

  lemma AheadIsIn(q: seq<Wid>, w: Wid, v: Wid)
    requires Ahead(q, w, v)
    ensures w in q && v in q
  {
  }

  lemma TidyOrder(s: State, c: string, r: string, env: Env)
    requires Core(s) && Seated(s, c, r)
    ensures Kept(s, Tidy(s, c, r, env))
  {
    hide Core, Remember, Waits;
    TidySteady(s, c, r, env);
    TidyEmpty(s, c, r, env);
    GrowKeeps(s, Tidy(s, c, r, env));
  }

  /** Only readers with nobody waiting are retired. */
  lemma TidyEmpty(s: State, c: string, r: string, env: Env)
    requires Core(s) && Seated(s, c, r)
    ensures QueuesGrow(s, Tidy(s, c, r, env))
  {
    hide Core, Remember, InQueue;
    var s1 := if IdleReader(s.groups[c].readers[r]) then RetireReader(s, c, r, env.at(HistoryKey(c, r))) else s;
    assert QueuesGrow(s, s1);
    if IdleGroup(s1.groups[c]) {
      forall q | q in s.groups[c].readers ensures s.groups[c].readers[q].queue == [] { EmptyIfIdle(s, c, q); }
    }
  }

  lemma EmptyIfIdle(s: State, c: string, q: string)
    requires Core(s) && Seated(s, c, q) && IdleGroup(s.groups[c])
    ensures s.groups[c].readers[q].queue == []
  {
    hide Tally, OrdersOk, HistoryOk, WaitersOk, GroupsOk;
    IdleGroupIsEmpty(s, c, q);
  }

  lemma LeaveOrder(s: State, w: Wid, p: Phase, close: bool, env: Env)
    requires Settled(s) && InQueue(s, w) && Leaving(p)
    ensures Kept(s, Leave(s, w, p, close, env))
  {
    hide Core, NoIdle, Kept, Dequeue, Tidy;
    var m := Dequeue(s, w, p, close);
    DequeueOrder(s, w, p, close);
    DequeueKeeps(s, w, p, close);
    TidyOrder(m, s.waiters[w].cid, s.waiters[w].rid, env);
    KeptThen(s, m, Withdraw(s, w, p, close, env));
  }

  lemma FrontLeaves(q: seq<Wid>, w: Wid, v: Wid)
    requires Ahead(q, w, v) && w != q[0] && v != q[0]
    ensures Ahead(q[1..], w, v)
  {
    var i, j :| 0 <= i < j < |q| && q[i] == w && q[j] == v;
    assert q[1..][i - 1] == w && q[1..][j - 1] == v;
  }

  /** Nobody is ahead of the front. */
  lemma FrontIsFirst(q: seq<Wid>, w: Wid, v: Wid)
    requires Distinct(q) && Ahead(q, w, v)
    ensures v != q[0]
  {
  }

  lemma StartOrder(s: State, c: string, r: string)
    requires Core(s) && CanPop(s, c, r) && s.active < s.budget.workers
    ensures Kept(s, Start(s, c, r))
  {
    hide Core, Ahead, Credit, ReaderCredit, Standing, ReaderStanding, ReaderStarts;
    var s' := Start(s, c, r);
    StartOnward(s, c, r);
    QueueDistinct(s, c, r);
    forall a, b | Waits(s, a, b)
      ensures a in s'.waiters && b in s'.waiters && (!s'.waiters[a].phase.Queued? || Waits(s', a, b))
    {
      var q := s.groups[s.waiters[a].cid].readers[s.waiters[a].rid].queue;
      AheadIsIn(q, a, b);
      if s.waiters[a].cid == c && s.waiters[a].rid == r {
        FrontIsFirst(q, a, b);
        if a != q[0] {
          FrontLeaves(q, a, b);
          AheadIsIn(q[1..], a, b);
        }
      }
    }
  }

  lemma QueueDistinct(s: State, c: string, r: string)
    requires Core(s) && Seated(s, c, r)
    ensures Distinct(s.groups[c].readers[r].queue)
  {
    hide Tally, OrdersOk, HistoryOk;
    assert ReaderOk(s.waiters, c, r, s.groups[c].readers[r]);
  }

  lemma ServeOrder(s: State, c: string, r: string, env: Env)
    requires Core(s) && CanPop(s, c, r) && s.active < s.budget.workers
    ensures Kept(s, Serve(s, c, r, env))
  {
    hide Core, Kept, Dequeue, Start;
    var w := s.groups[c].readers[r].queue[0];
    match env.fate(w)
    case Go => StartOrder(s, c, r);
    case ContextDone => DequeueOrder(s, w, Cancelled, true);
    case PastDeadline => DequeueOrder(s, w, Expired, true);
  }

  lemma TurnsGrow(s: State, s': State, c: string, r: string)
    requires OnlyTurns(s, s', c, r) && s'.waiters == s.waiters
    ensures QueuesGrow(s, s') && Seated(s', c, r)
  {
  }

  lemma NextTurnWaiters(s: State, c: string, r: string)
    requires Seated(s, c, r)
    ensures NextTurn(s, c, r).waiters == s.waiters
  {
  }

  lemma SteadyLives(s: State, s': State)
    requires Steady(s, s')
    ensures AllLived(s, s')
  {
  }

  lemma NextTurnOrder(s: State, c: string, r: string)
    requires Seated(s, c, r)
    ensures Kept(s, NextTurn(s, c, r)) && Seated(NextTurn(s, c, r), c, r)
  {
    hide Waits, NextTurn, Steady;
    NextTurnIsTurns(s, c, r);
    NextTurnSteady(s, c, r);
    NextTurnWaiters(s, c, r);
    TurnsGrow(s, NextTurn(s, c, r), c, r);
    SteadyLives(s, NextTurn(s, c, r));
    GrowKeeps(s, NextTurn(s, c, r));
  }

  lemma PopOrder(s: State, c: string, r: string, env: Env)
    requires Settled(s) && CanPop(s, c, r) && s.active < s.budget.workers
    ensures Kept(s, Pop(s, c, r, env))
  {
    hide Core, NoIdle, Kept, Serve, NextTurn, Tidy;
    PopReady(s, c, r, env);
    var m1 := Serve(s, c, r, env);
    ServeOrder(s, c, r, env);
    var m2 := NextTurn(m1, c, r);
    NextTurnOrder(m1, c, r);
    KeptThen(s, m1, m2);
    TidyOrder(m2, c, r, env);
    KeptThen(s, m2, Pop(s, c, r, env));
  }

  lemma {:induction false} DispatchOrder(s: State, env: Env)
    requires Settled(s)
    ensures Kept(s, Dispatch(s, env))
    decreases s.waiting
  {
    hide Core, NoIdle, Pop, Kept;
    if CanDispatch(s) {
      ReadyMeansWaiting(s);
      var c := NextGroup(s);
      PopOrder(s, c, NextReader(s, c), env);
      var m := DispatchOne(s, env);
      DispatchOrder(m, env);
      KeptThen(s, m, Dispatch(m, env));
    } else {
      NothingOrder(s);
    }
  }

  lemma NothingOrder(s: State)
    ensures Kept(s, s)
  {
  }

  lemma PopReady(s: State, c: string, r: string, env: Env)
    requires Settled(s) && CanPop(s, c, r) && s.active < s.budget.workers
    ensures Seated(Serve(s, c, r, env), c, r) && Core(NextTurn(Serve(s, c, r, env), c, r))
  {
    hide Core, NoIdle;
    NoIdleAtAll(s, c, r);
    ServeKeeps(s, c, r, env);
    hide Serve;
    NextTurnKeeps(Serve(s, c, r, env), c, r);
  }

  // ---------- Events ----------

  lemma {:induction false} EvictionsOrder(s: State, c: string, r: string, bytes: nat, victims: seq<Wid>, env: Env)
    requires Settled(s) && EvictionRun(s, c, r, bytes, victims, env)
    ensures Kept(s, AfterEvictions(s, c, r, bytes, victims, env))
    decreases |victims|
  {
    hide Core, NoIdle, IsVictim, NoDonor, Full, Withdraw, Kept;
    if victims == [] {
      NothingOrder(s);
    } else {
      VictimAtHead(s, c, r, bytes, victims, env);
      LeaveOrder(s, victims[0], Rejected, true, env);
      var m := Leave(s, victims[0], Rejected, true, env);
      EvictionsOrder(m, c, r, bytes, victims[1..], env);
      KeptThen(s, m, AfterEvictions(m, c, r, bytes, victims[1..], env));
    }
  }

  lemma {:induction false} DropsOrder(s: State, c: string, order: seq<Wid>, env: Env)
    requires Settled(s) && DropRun(s, c, order, env)
    ensures Kept(s, AfterDrops(s, c, order, env))
    decreases |order|
  {
    hide Core, NoIdle, Withdraw, Kept;
    if order == [] {
      NothingOrder(s);
    } else {
      LeaveOrder(s, order[0], Cancelled, true, env);
      var m := Leave(s, order[0], Cancelled, true, env);
      DropsOrder(m, c, order[1..], env);
      KeptThen(s, m, AfterDrops(m, c, order[1..], env));
    }
  }

  lemma EnqueueOrder(s: State, c: string, r: string, w: Wid, bytes: nat, g0: Group, rd0: Reader)
    requires w !in s.waiters
    ensures Kept(s, Enqueue(s, c, r, w, bytes, g0, rd0))
  {
    hide Waits, Forget;
    GrowKeeps(s, Enqueue(s, c, r, w, bytes, g0, rd0));
  }

  /** Whoever arrives stands behind all that its reader has waiting. */
  lemma NewcomerIsLast(s: State, c: string, r: string, w: Wid, bytes: nat, g0: Group, rd0: Reader, u: Wid)
    requires w !in s.waiters && InQueue(s, u) && s.waiters[u].cid == c && s.waiters[u].rid == r
    ensures Waits(Enqueue(s, c, r, w, bytes, g0, rd0), u, w)
  {
    hide Forget;
    var q := s.groups[c].readers[r].queue;
    var i :| 0 <= i < |q| && q[i] == u;
    assert (q + [w])[i] == u && (q + [w])[|q|] == w;
  }

  lemma PreparedOrder(s: State, e: Event, env: Env)
    requires Enabled(s, e, env)
    ensures Kept(s, Prepared(s, e, env))
  {
    hide Core, NoIdle, Saturated, Kept;
    match e
    case Arrive(c, r, w, payload, now, victims) =>
      if TakesLock(s.budget, e) {
        EvictionsSpare(s, c, r, RequestBytes(payload), victims, env);
        EvictionsOrder(s, c, r, RequestBytes(payload), victims, env);
        hide EvictionRun, AfterEvictions, Enqueue, Refuse, RestoreGroup, RestoreReader;
        ArriveOrder(s, AfterEvictions(s, c, r, RequestBytes(payload), victims, env), Prepared(s, e, env), c, r, w, RequestBytes(payload),
                    if c in s.groups then s.groups[c] else RestoreGroup(s, c, now),
                    if Seated(s, c, r) then s.groups[c].readers[r]
                    else RestoreReader(s, c, r, (if c in s.groups then s.groups[c] else RestoreGroup(s, c, now)).clock, now));
      } else {
        NothingOrder(s);
      }
    case Wake(w, contextDone) =>
      if s.waiters[w].phase.Queued? {
        QueuedIsPlaced(s, w);
        LeaveOrder(s, w, if contextDone then Cancelled else Expired, false, env);
      } else {
        NothingOrder(s);
      }
    case Done(w, elapsed) =>
      if s.waiters[w].phase.Running? { FinishOrder(s, w, elapsed, env); } else { NothingOrder(s); }
    case Delete(c, order) => DeleteOrder(s, c, order, env);
  }

  lemma ArriveOrder(s: State, s1: State, m: State, c: string, r: string, w: Wid, bytes: nat, g0: Group, rd0: Reader)
    requires Kept(s, s1) && w !in s1.waiters
    requires m == if Full(s1, bytes) then Refuse(s1, c, r, w, bytes) else Enqueue(s1, c, r, w, bytes, g0, rd0)
    ensures Kept(s, m)
  {
    hide Kept, Enqueue, Full;
    if Full(s1, bytes) { RefuseOrder(s1, c, r, w, bytes); } else { EnqueueOrder(s1, c, r, w, bytes, g0, rd0); }
    KeptThen(s, s1, m);
  }

  lemma RefuseOrder(s: State, c: string, r: string, w: Wid, bytes: nat)
    requires w !in s.waiters
    ensures Kept(s, Refuse(s, c, r, w, bytes))
  {
    hide Waits;
    GrowKeeps(s, Refuse(s, c, r, w, bytes));
  }

  lemma CompleteOrder(s: State, w: Wid, elapsed: int)
    requires IsRunning(s, w)
    ensures Kept(s, Complete(s, w, elapsed)) && Seated(Complete(s, w, elapsed), s.waiters[w].cid, s.waiters[w].rid)
  {
    hide Waits, Settle;
    GrowKeeps(s, Complete(s, w, elapsed));
  }

  lemma FinishOrder(s: State, w: Wid, elapsed: int, env: Env)
    requires Settled(s) && w in s.waiters && s.waiters[w].phase.Running?
    ensures IsRunning(s, w) && Kept(s, Finish(s, w, elapsed, env))
  {
    hide Core, NoIdle, Kept, Complete, Tidy;
    RunningCounts(s, w);
    var m := Complete(s, w, elapsed);
    CompleteOrder(s, w, elapsed);
    CompleteKeeps(s, w, elapsed);
    TidyOrder(m, s.waiters[w].cid, s.waiters[w].rid, env);
    KeptThen(s, m, Finish(s, w, elapsed, env));
  }

  lemma DeleteOrder(s: State, c: string, order: seq<Wid>, env: Env)
    requires Settled(Discard(s, c)) && DropRun(Discard(s, c), c, order, env)
    ensures Kept(s, Disown(AfterDrops(Discard(s, c), c, order, env), c))
  {
    hide Core, NoIdle, Waits, ForgetCommunity;
    var d := Discard(s, c);
    var s1 := AfterDrops(d, c, order, env);
    GrowKeeps(s, d);
    DropsOrder(d, c, order, env);
    GrowKeeps(s1, Disown(s1, c));
    hide Kept, Discard, Disown;
    KeptThen(s, d, s1);
    KeptThen(s, s1, Disown(s1, c));
  }

  lemma NextOrder(s: State, e: Event, env: Env)
    requires Enabled(s, e, env)
    ensures Kept(s, Next(s, e, env))
  {
    hide Core, NoIdle, Next, Prepared, Enabled, Dispatch, Kept;
    NextFromPrepared(s, e, env);
    var m := Prepared(s, e, env);
    PreparedOrder(s, e, env);
    if Next(s, e, env) != m {
      DispatchOrder(m, env);
      KeptThen(s, m, Next(s, e, env));
    }
  }

  lemma {:induction false} OrderOverRuns(s: State, trace: Trace)
    requires Inv(s) && Run(s, trace)
    ensures Kept(s, After(s, trace))
    decreases |trace|
  {
    hide Core, NoIdle, Saturated, Next, Enabled, Kept;
    if trace == [] {
      NothingOrder(s);
    } else {
      var s' := Next(s, trace[0].0, trace[0].1);
      NextOrder(s, trace[0].0, trace[0].1);
      OrderOverRuns(s', trace[1..]);
      KeptThen(s, s', After(s', trace[1..]));
    }
  }

  /** In no run does a request start while one that waited in front of it still waits. */
  lemma FirstComeFirstServed(s: State, trace: Trace, w: Wid, v: Wid)
    requires Inv(s) && Run(s, trace) && Waits(s, w, v)
    ensures var s' := After(s, trace);
            w in s'.waiters && v in s'.waiters
            && (s'.waiters[w].phase.Queued? ==> !s'.waiters[v].phase.Running? && !s'.waiters[v].phase.Completed?)
  {
    hide Core, NoIdle, Saturated, Run, After, Ahead;
    OrderOverRuns(s, trace);
  }

  /** And whoever arrives waits behind everybody its reader has waiting, so it starts after them. */
  lemma ArrivalWaitsItsTurn(s: State, e: Event, env: Env, u: Wid, trace: Trace)
    requires Enabled(s, e, env) && e.Arrive? && TakesLock(s.budget, e)
    requires u in s.waiters && s.waiters[u].phase.Queued? && s.waiters[u].cid == e.c && s.waiters[u].rid == e.r
    requires Run(Next(s, e, env), trace)
    ensures var s' := After(Next(s, e, env), trace);
            u in s'.waiters && e.w in s'.waiters
            && (s'.waiters[u].phase.Queued? ==> !s'.waiters[e.w].phase.Running? && !s'.waiters[e.w].phase.Completed?)
  {
    hide Core, NoIdle, Saturated, Run, After, Ahead, Dispatch, Next, Kept;
    var m, n := Prepared(s, e, env), Next(s, e, env);
    NextFromPrepared(s, e, env);
    ArrivalPrepared(s, e, env, u);
    if n == m { NothingOrder(m); } else { DispatchOrder(m, env); }
    OrderOverRuns(n, trace);
    KeptThen(m, n, After(n, trace));
    KeptMeans(m, After(n, trace), u, e.w);
  }

  lemma KeptMeans(m: State, s': State, u: Wid, w: Wid)
    requires Kept(m, s') && u in m.waiters && w in m.waiters
    requires m.waiters[u].phase.Queued? ==> Waits(m, u, w) || m.waiters[w].phase.Rejected?
    requires !m.waiters[u].phase.Queued? ==> Ended(m.waiters[u].phase)
    ensures u in s'.waiters && w in s'.waiters
            && (s'.waiters[u].phase.Queued? ==> !s'.waiters[w].phase.Running? && !s'.waiters[w].phase.Completed?)
  {
    hide Ahead;
    assert Lived(m.waiters[u], s'.waiters[u]) && Lived(m.waiters[w], s'.waiters[w]);
  }

  lemma ArrivalPrepared(s: State, e: Event, env: Env, u: Wid)
    requires Enabled(s, e, env) && e.Arrive? && TakesLock(s.budget, e)
    requires u in s.waiters && s.waiters[u].phase.Queued? && s.waiters[u].cid == e.c && s.waiters[u].rid == e.r
    ensures var m := Prepared(s, e, env);
            u in m.waiters && e.w in m.waiters
            && (m.waiters[u].phase.Queued? ==> Waits(m, u, e.w) || m.waiters[e.w].phase.Rejected?)
            && (!m.waiters[u].phase.Queued? ==> Ended(m.waiters[u].phase))
  {
    hide Core, NoIdle, Saturated, Waits, RestoreGroup, RestoreReader;
    var bytes := RequestBytes(e.payload);
    var s1 := AfterEvictions(s, e.c, e.r, bytes, e.victims, env);
    EvictionsSpare(s, e.c, e.r, bytes, e.victims, env);
    EvictionsSteady(s, e.c, e.r, bytes, e.victims, env);
    EvictedOrQueued(s, e.c, e.r, bytes, e.victims, env, u);
    hide EvictionRun, AfterEvictions, Steady;
    if s1.waiters[u].phase.Queued? && !Full(s1, bytes) {
      QueuedIsPlaced(s, u);
      QueuedIsPlaced(s1, u);
      NewcomerIsLast(s1, e.c, e.r, e.w, bytes, s.groups[e.c], s.groups[e.c].readers[e.r], u);
    }
  }

  lemma {:induction false} EvictedOrQueued(s: State, c: string, r: string, bytes: nat, victims: seq<Wid>, env: Env, u: Wid)
    requires Settled(s) && EvictionRun(s, c, r, bytes, victims, env) && u in s.waiters
    requires s.waiters[u].phase.Queued? || s.waiters[u].phase.Rejected?
    ensures var m := AfterEvictions(s, c, r, bytes, victims, env);
            u in m.waiters && (m.waiters[u].phase.Queued? || m.waiters[u].phase.Rejected?)
            && m.waiters[u].cid == s.waiters[u].cid && m.waiters[u].rid == s.waiters[u].rid
    decreases |victims|
  {
    hide Core, NoIdle, IsVictim, NoDonor, Full, Remember, Without;
    if victims != [] {
      VictimAtHead(s, c, r, bytes, victims, env);
      EvictedOrQueued(Leave(s, victims[0], Rejected, true, env), c, r, bytes, victims[1..], env, u);
    }
  }
}

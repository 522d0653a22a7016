/** Who is let in, who is turned away, and what a started request is charged, said on the fields. */
module SchedulerAdmission {
  import opened SchedulerState
  import opened SchedulerSteps
  import opened SchedulerInvariant
  import opened SchedulerEvents

  // ---------- Who is turned away ----------

  /** There is room for one more request of this size. */
  predicate Room(s: State, bytes: int) { s.waiting < s.budget.queue && s.bytes + bytes <= s.budget.queueBytes }

  /** No community waits for more than one request beyond `c`, and no reader of `c` beyond `r`. */
  ghost predicate Balanced(s: State, c: string, r: string) {
    var mine := if c in s.groups then s.groups[c].waiting else 0;
    (forall o :: o in s.groups ==> s.groups[o].waiting <= mine + 1)
    && (c in s.groups ==>
          var g := s.groups[c];
          var own := if r in g.readers then |g.readers[r].queue| else 0;
          forall q :: q in g.readers ==> |g.readers[q].queue| <= own + 1)
  }

  /** Between two states exactly these requests were turned away. */
  ghost predicate TurnedAway(s: State, s': State, gone: set<Wid>) {
    forall u :: u in s.waiters ==>
      u in s'.waiters && (s'.waiters[u].phase.Rejected? <==> s.waiters[u].phase.Rejected? || u in gone)
  }

  function AllOf(ws: seq<Wid>): set<Wid> { set w | w in ws }

  lemma TurnedAwayThen(s: State, m: State, s': State, gone: set<Wid>, more: set<Wid>)
    requires TurnedAway(s, m, gone) && TurnedAway(m, s', more)
    ensures TurnedAway(s, s', gone + more)
  {
  }

  lemma NobodyMore(gone: set<Wid>)
    ensures gone + {} == gone
  {
  }

  lemma ServeTurnsNobodyAway(s: State, c: string, r: string, env: Env)
    requires CanPop(s, c, r)
    ensures TurnedAway(s, Serve(s, c, r, env), {}) && Seated(Serve(s, c, r, env), c, r)
  {
    hide Without;
  }

  lemma PopTurnsNobodyAway(s: State, c: string, r: string, env: Env)
    requires CanPop(s, c, r)
    ensures TurnedAway(s, Pop(s, c, r, env), {})
  {
    hide Remember, Serve, TurnedAway;
    ServeTurnsNobodyAway(s, c, r, env);
    SameWaiters(s, Serve(s, c, r, env), Pop(s, c, r, env), {});
  }

  lemma SameWaiters(s: State, m: State, s': State, gone: set<Wid>)
    requires TurnedAway(s, m, gone) && s'.waiters == m.waiters
    ensures TurnedAway(s, s', gone)
  {
  }

  lemma {:induction false} DispatchTurnsNobodyAway(s: State, env: Env)
    requires Settled(s)
    ensures TurnedAway(s, Dispatch(s, env), {})
    decreases s.waiting
  {
    hide Core, NoIdle, Pop, TurnedAway;
    if CanDispatch(s) {
      ReadyMeansWaiting(s);
      PopTurnsNobodyAway(s, NextGroup(s), NextReader(s, NextGroup(s)), env);
      DispatchTurnsNobodyAway(DispatchOne(s, env), env);
      TurnedAwayThen(s, DispatchOne(s, env), Dispatch(s, env), {}, {});
      NobodyMore({});
    } else {
      NobodyTurnedAway(s);
    }
  }

  lemma NobodyTurnedAway(s: State)
    ensures TurnedAway(s, s, {})
  {
  }

  lemma LeaveTurnsAway(s: State, w: Wid, env: Env)
    requires Settled(s) && InQueue(s, w)
    ensures TurnedAway(s, Leave(s, w, Rejected, true, env), {w})
  {
    hide Core, NoIdle, Remember, Without;
  }

  lemma {:induction false} EvictionsTurnAway(s: State, c: string, r: string, bytes: nat, victims: seq<Wid>, env: Env)
    requires Settled(s) && EvictionRun(s, c, r, bytes, victims, env)
    ensures TurnedAway(s, AfterEvictions(s, c, r, bytes, victims, env), AllOf(victims))
    decreases |victims|
  {
    hide Core, NoIdle, IsVictim, NoDonor, Full, TurnedAway;
    if victims == [] {
      NobodyTurnedAway(s);
      assert AllOf(victims) == {};
    } else {
      VictimAtHead(s, c, r, bytes, victims, env);
      var m := Leave(s, victims[0], Rejected, true, env);
      LeaveTurnsAway(s, victims[0], env);
      EvictionsTurnAway(m, c, r, bytes, victims[1..], env);
      TurnedAwayThen(s, m, AfterEvictions(s, c, r, bytes, victims, env), {victims[0]}, AllOf(victims[1..]));
      assert AllOf(victims) == {victims[0]} + AllOf(victims[1..]);
    }
  }

  lemma RefusalTurnsAway(s: State, c: string, r: string, w: Wid, bytes: nat)
    requires w !in s.waiters
    ensures TurnedAway(s, Refuse(s, c, r, w, bytes), {})
  {
  }

  lemma EntryTurnsNobodyAway(s: State, c: string, r: string, w: Wid, bytes: nat, g0: Group, rd0: Reader)
    requires w !in s.waiters
    ensures TurnedAway(s, Enqueue(s, c, r, w, bytes, g0, rd0), {}) && w in Enqueue(s, c, r, w, bytes, g0, rd0).waiters
    ensures Enqueue(s, c, r, w, bytes, g0, rd0).waiters[w].phase.Queued?
  {
  }

  /** When the eviction loop is over there is room, or everybody is balanced. */
  lemma RoomOrBalanced(s: State, c: string, r: string, bytes: nat)
    ensures Room(s, bytes) <==> !Full(s, bytes)
    ensures NoDonor(s, c, r) <==> Balanced(s, c, r)
  {
  }

  lemma NoVictimsWithRoom(s: State, c: string, r: string, bytes: nat, victims: seq<Wid>, env: Env)
    requires Settled(s) && EvictionRun(s, c, r, bytes, victims, env)
    ensures Room(s, bytes) ==> victims == []
    ensures !Room(s, bytes) && !Balanced(s, c, r) ==> victims != []
  {
    RoomOrBalanced(s, c, r, bytes);
  }

  /** What an arrival comes to, once its evictions have left `left`. */
  ghost predicate Admission(s: State, e: Event, bytes: int, left: State, s': State)
    requires e.Arrive?
  {
    (Room(s, bytes) ==> e.victims == []) && (!Room(s, bytes) && !Balanced(s, e.c, e.r) ==> e.victims != [])
    && e.w in s'.waiters && (s'.waiters[e.w].phase.Rejected? <==> !Room(left, bytes))
    && (!Room(left, bytes) ==> Balanced(left, e.c, e.r))
    && TurnedAway(s, s', AllOf(e.victims))
  }

  lemma RequestSize(payload: int)
    ensures RequestBytes(payload) == 32 * 1024 + 2 * (if payload > 0 then payload else 0)
  {
  }

  /** An arrival with an identity and of a size that can fit: with room nobody is evicted; otherwise somebody
      is, unless all are balanced. It is turned away exactly if even then there is no room, and only
      once all are balanced. Nobody else is turned away than the evicted. */
  lemma AdmittedIff(s: State, e: Event, env: Env)
    requires Enabled(s, e, env) && e.Arrive? && TakesLock(s.budget, e)
    ensures RequestBytes(e.payload) == 32 * 1024 + 2 * (if e.payload > 0 then e.payload else 0)
    ensures var bytes := RequestBytes(e.payload);
            Admission(s, e, bytes, AfterEvictions(s, e.c, e.r, bytes, e.victims, env), Next(s, e, env))
  {
    hide Core, NoIdle, Saturated, EvictionRun, AfterEvictions, RestoreGroup, RestoreReader, Enqueue, TurnedAway, NoDonor, Room, Balanced, Next, RequestBytes;
    RequestSize(e.payload);
    var bytes := RequestBytes(e.payload);
    var left := AfterEvictions(s, e.c, e.r, bytes, e.victims, env);
    NoVictimsWithRoom(s, e.c, e.r, bytes, e.victims, env);
    RoomOrBalanced(left, e.c, e.r, bytes);
    EvictionsTurnAway(s, e.c, e.r, bytes, e.victims, env);
    NewToAll(s, e, env);
    LeftAway(s, e, env, left);
  }

  lemma NewToAll(s: State, e: Event, env: Env)
    requires Enabled(s, e, env) && e.Arrive? && TakesLock(s.budget, e)
    ensures e.w !in AfterEvictions(s, e.c, e.r, RequestBytes(e.payload), e.victims, env).waiters
  {
    hide Core, NoIdle, Saturated, EvictionRun, AfterEvictions, RestoreGroup, RestoreReader, Enqueue, RequestBytes;
    AdmitReady(s, e.c, e.r, e.w, RequestBytes(e.payload), e.now, e.victims, env);
  }

  lemma LeftAway(s: State, e: Event, env: Env, left: State)
    requires Enabled(s, e, env) && e.Arrive? && TakesLock(s.budget, e)
    requires left == AfterEvictions(s, e.c, e.r, RequestBytes(e.payload), e.victims, env) && e.w !in left.waiters
    requires TurnedAway(s, left, AllOf(e.victims))
    ensures e.w in Next(s, e, env).waiters
    ensures Next(s, e, env).waiters[e.w].phase.Rejected? <==> Full(left, RequestBytes(e.payload))
    ensures TurnedAway(s, Next(s, e, env), AllOf(e.victims))
  {
    hide Core, NoIdle, Saturated, EvictionRun, AfterEvictions, Dispatch, RestoreGroup, RestoreReader, Enqueue, TurnedAway, Full;
    var c, r, w, bytes := e.c, e.r, e.w, RequestBytes(e.payload);
    AdmitReady(s, c, r, w, bytes, e.now, e.victims, env);
    var away := AllOf(e.victims);
    assert away + {} == away;
    if Full(left, bytes) {
      RefusalTurnsAway(left, c, r, w, bytes);
      TurnedAwayThen(s, left, Refuse(left, c, r, w, bytes), away, {});
    } else {
      var g0 := if c in s.groups then s.groups[c] else RestoreGroup(s, c, e.now);
      var rd0 := if Seated(s, c, r) then s.groups[c].readers[r] else RestoreReader(s, c, r, g0.clock, e.now);
      var m := Enqueue(left, c, r, w, bytes, g0, rd0);
      EntryTurnsNobodyAway(left, c, r, w, bytes, g0, rd0);
      DispatchTurnsNobodyAway(m, env);
      TurnedAwayThen(s, left, m, away, {});
      TurnedAwayThen(s, m, Dispatch(m, env), away, {});
      NewcomerStays(m, Dispatch(m, env), w);
    }
  }

  lemma NewcomerStays(m: State, s': State, w: Wid)
    requires TurnedAway(m, s', {}) && w in m.waiters && !m.waiters[w].phase.Rejected?
    ensures w in s'.waiters && !s'.waiters[w].phase.Rejected?
  {
  }

  // ---------- What a start is charged ----------

  /** A request that starts is charged what its community and its reader are each estimated to take, both
      pay that at once, and the clocks are at least what each had paid when its turn came. */
  lemma TurnCharges(s: State, c: string, r: string, env: Env)
    requires Settled(s) && CanPop(s, c, r) && s.active < s.budget.workers
    requires env.fate(s.groups[c].readers[r].queue[0]).Go?
    ensures var s', w := Pop(s, c, r, env), s.groups[c].readers[r].queue[0];
            var g, rd := s.groups[c], s.groups[c].readers[r];
            Seated(s', c, r) && w in s'.waiters && s'.waiters[w].phase == Running(g.estimate, rd.estimate)
            && s'.groups[c].service - g.service == g.estimate && s'.groups[c].readers[r].service - rd.service == rd.estimate
            && s'.clock >= g.service && (s'.clock == s.clock || s'.clock == g.service)
            && s'.groups[c].clock >= rd.service && (s'.groups[c].clock == g.clock || s'.groups[c].clock == rd.service)
            && s'.active == s.active + 1 && s'.groups[c].active == g.active + 1 && s'.groups[c].readers[r].active == rd.active + 1
  {
    hide Core, NoIdle, Tidy, NextTurn, InQueue;
    ActiveNotNegative(s, c, r);
    var m := Start(s, c, r);
    TurnKeepsSeats(m, c, r, env);
  }

  lemma ActiveNotNegative(s: State, c: string, r: string)
    requires Core(s) && Seated(s, c, r)
    ensures s.groups[c].active >= 0 && s.groups[c].readers[r].active >= 0
  {
    hide Tally, OrdersOk, HistoryOk;
    assert ReaderOk(s.waiters, c, r, s.groups[c].readers[r]) && GroupOk(s.waiters, c, s.groups[c]);
    TallyAtLeast(s.waiters, GroupActive(c));
    TallyAtLeast(s.waiters, ReaderActive(c, r));
  }

  lemma TurnKeepsSeats(s: State, c: string, r: string, env: Env)
    requires Seated(s, c, r) && s.groups[c].active > 0 && s.groups[c].readers[r].active > 0
    ensures var s' := Tidy(NextTurn(s, c, r), c, r, env);
            Seated(s', c, r) && s'.waiters == s.waiters && s'.clock == s.clock && s'.active == s.active
            && var g, g', rd, rd' := s.groups[c], s'.groups[c], s.groups[c].readers[r], s'.groups[c].readers[r];
               g'.service == g.service && g'.clock == g.clock && g'.active == g.active
               && rd'.service == rd.service && rd'.active == rd.active
  {
    hide Remember;
  }

  /** An estimate goes a quarter of the way to what was observed, and never past it. */
  predicate Nears(before: int, after: int, observed: int) {
    && 4 * (after - observed) <= 3 * (before - observed) < 4 * (after - observed) + 4
    && (if before >= observed then observed <= after <= before else before <= after <= observed)
  }

  lemma EstimatesNear(s: State, w: Wid, elapsed: int)
    requires IsRunning(s, w)
    ensures var c, r := s.waiters[w].cid, s.waiters[w].rid;
            var s', observed := Complete(s, w, elapsed), if elapsed < 1000000 then 1000000 else elapsed;
            Nears(s.groups[c].estimate, s'.groups[c].estimate, observed)
            && Nears(s.groups[c].readers[r].estimate, s'.groups[c].readers[r].estimate, observed)
  {
    var c, r := s.waiters[w].cid, s.waiters[w].rid;
    var observed := if elapsed < 1000000 then 1000000 else elapsed;
    QuarterNears(s.groups[c].estimate, observed);
    QuarterNears(s.groups[c].readers[r].estimate, observed);
  }

  lemma QuarterNears(estimate: int, observed: int)
    ensures Nears(estimate, (estimate * 3 + observed) / 4, observed)
  {
  }
}

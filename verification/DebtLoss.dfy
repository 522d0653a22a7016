/** A run in which debt is forgotten: one slow request, then as many quick ones from other
  communities as the list holds. It works for every budget that admits a request at all.
 */
module DebtLoss {
  import opened SchedulerState
  import opened SchedulerSteps
  import opened SchedulerInvariant
  import opened SchedulerEvents
  import opened SchedulerTheorems
  import opened DebtRecord
  import opened SchedulerDebt

  const READER := "r"

  function AlwaysGo(): Env { Env(_ => Go, _ => 0) }

  function Name(n: nat): string { seq(n + 1, _ => 'x') }

  /** Nobody is here, requests up to `n` have been and gone, and later names are new. */
  ghost predicate Quiet(s: State, b: Budget, n: nat) {
    Inv(s) && s.budget == b && s.groups == map[] && s.active == s.waiting == s.bytes == s.clock == 0
    && (forall w :: w in s.waiters ==> w < n)
    && (forall m: nat :: m >= n ==> Unheard(s.lru, Name(m)))
  }

  ghost predicate Unheard(lru: seq<History>, c: string) { forall h :: h in lru ==> h.key.community != c }

  predicate Admits(b: Budget) { b.workers >= 1 && b.queue >= 1 && b.queueBytes >= REQUEST_ALLOWANCE }

  function Debts(c: string, elapsed: nat): seq<Touch> {
    [Gone(HistoryKey(c, "")), Gone(HistoryKey(c, READER)),
     Kept(History(HistoryKey(c, READER), Max(MILLISECOND, elapsed), (3 * DEFAULT_ESTIMATE + Max(MILLISECOND, elapsed)) / 4, 0, 0)),
     Kept(History(HistoryKey(c, ""), Max(MILLISECOND, elapsed), (3 * DEFAULT_ESTIMATE + Max(MILLISECOND, elapsed)) / 4, 0, 0))]
  }

  function Visit(n: nat, elapsed: nat): Trace {
    [(Arrive(Name(n), READER, n, 0, 0, []), AlwaysGo()), (Done(n, elapsed), AlwaysGo())]
  }

  // ---------- One visit ----------

  /** With nobody else there the newcomer starts at once. */
  function Started(s: State, n: nat): State {
    var c := Name(n);
    var g := Group(map[READER := Reader([], 1, DEFAULT_ESTIMATE, DEFAULT_ESTIMATE, s.order + 1)], 1, 0, DEFAULT_ESTIMATE,
                   DEFAULT_ESTIMATE, s.order + 2, 0, false);
    s.(groups := map[c := g],
       waiters := s.waiters[n := Waiter(c, READER, REQUEST_ALLOWANCE, Running(DEFAULT_ESTIMATE, DEFAULT_ESTIMATE), true)],
       lru := Forget(Forget(s.lru, HistoryKey(c, "")), HistoryKey(c, READER)),
       touches := s.touches + [Gone(HistoryKey(c, "")), Gone(HistoryKey(c, READER))],
       active := 1, order := s.order + 2, log := s.log + [c])
  }

  function Queued1(s: State, n: nat): State {
    var c := Name(n);
    var g := Group(map[READER := Reader([n], 0, 0, DEFAULT_ESTIMATE, s.order + 1)], 0, 1, 0, DEFAULT_ESTIMATE, s.order + 2, 0, false);
    s.(groups := map[c := g], waiters := s.waiters[n := Waiter(c, READER, REQUEST_ALLOWANCE, Queued, false)],
       lru := Forget(Forget(s.lru, HistoryKey(c, "")), HistoryKey(c, READER)),
       touches := s.touches + [Gone(HistoryKey(c, "")), Gone(HistoryKey(c, READER))],
       waiting := 1, bytes := REQUEST_ALLOWANCE, order := s.order + 2)
  }

  lemma {:induction false} UnheardRecall(lru: seq<History>, key: HistoryKey)
    requires Unheard(lru, key.community)
    ensures Recall(lru, key) == None
  {
    if lru != [] {
      assert lru[0] in lru;
      assert forall h :: h in lru[1..] ==> h in lru;
      UnheardRecall(lru[1..], key);
    }
  }

  lemma EnqueueAlone(s: State, b: Budget, n: nat)
    requires Quiet(s, b, n)
    ensures var g0 := RestoreGroup(s, Name(n), 0);
            Enqueue(s, Name(n), READER, n, REQUEST_ALLOWANCE, g0, RestoreReader(s, Name(n), READER, g0.clock, 0)) == Queued1(s, n)
  {
    hide Inv, Forget, Name;
    UnheardRecall(s.lru, HistoryKey(Name(n), ""));
    UnheardRecall(s.lru, HistoryKey(Name(n), READER));
    var c := Name(n);
    var g0 := RestoreGroup(s, c, 0);
    var s' := Enqueue(s, c, READER, n, REQUEST_ALLOWANCE, g0, RestoreReader(s, c, READER, g0.clock, 0));
    assert [] + [n] == [n];
    assert s'.groups == Queued1(s, n).groups;
    assert s.touches + [Gone(HistoryKey(c, ""))] + [Gone(HistoryKey(c, READER))] == Queued1(s, n).touches;
  }

  lemma DispatchAlone(m: State, s: State, b: Budget, n: nat)
    requires Quiet(s, b, n) && Admits(b) && m == Queued1(s, n) && Settled(m)
    ensures Dispatch(m, AlwaysGo()) == Started(s, n)
  {
    hide Core, NoIdle, Forget, Name, Inv, CanPop, IsLeast;
    var c := Name(n);
    assert ReadyGroups(m.groups) == map[c := Key(0, 0, s.order + 2)];
    assert c in ReadyGroups(m.groups) && m.active < m.budget.workers;
    OnlyLeast(ReadyGroups(m.groups), NextGroup(m), c);
    assert ReadyReaders(m.groups[c]) == map[READER := Key(0, 0, s.order + 1)];
    OnlyLeast(ReadyReaders(m.groups[c]), NextReader(m, c), READER);
    PopAlone(m, s, n);
    ReadyMeansWaiting(m);
    var after := DispatchOne(m, AlwaysGo());
    assert ReadyGroups(after.groups) == map[];
  }

  lemma OnlyLeast(keys: map<string, Key>, a: string, c: string)
    requires IsLeast(keys, a) && keys.Keys == {c}
    ensures a == c
  {
    assert a in keys.Keys;
  }

  lemma PopAlone(m: State, s: State, n: nat)
    requires m == Queued1(s, n) && s.waiting == s.bytes == s.active == s.clock == 0 && CanPop(m, Name(n), READER)
    ensures Pop(m, Name(n), READER, AlwaysGo()) == Started(s, n)
  {
    hide Forget, Name;
    var c := Name(n);
    var m1 := Serve(m, c, READER, AlwaysGo());
    assert m.groups[c].readers[READER].queue[1..] == [];
    assert m1.groups[c].readers == Started(s, n).groups[c].readers;
    assert m1.groups[c] == Started(s, n).groups[c];
    assert m1.groups == Started(s, n).groups;
    assert m1.waiters == Started(s, n).waiters;
    assert m1 == Started(s, n);
  }

  lemma ArriveAlone(s: State, b: Budget, n: nat)
    requires Quiet(s, b, n) && Admits(b)
    ensures var e := Visit(n, 0)[0].0; Enabled(s, e, AlwaysGo()) && Next(s, e, AlwaysGo()) == Started(s, n)
  {
    hide Core, NoIdle, Forget, Dispatch, Enqueue, RestoreGroup, RestoreReader, Queued1, Started;
    var c := Name(n);
    assert EvictionRun(s, c, READER, REQUEST_ALLOWANCE, [], AlwaysGo());
    AdmitReady(s, c, READER, n, REQUEST_ALLOWANCE, 0, [], AlwaysGo());
    EnqueueAlone(s, b, n);
    DispatchAlone(Queued1(s, n), s, b, n);
    assert !Seated(s, c, READER) && c !in s.groups;
  }

  /** The work done, reader and community are idle: both leave, the reader first. */
  function Left(s: State, n: nat, elapsed: nat): State {
    var c, lasted, estimate := Name(n), Max(MILLISECOND, elapsed), (3 * DEFAULT_ESTIMATE + Max(MILLISECOND, elapsed)) / 4;
    var m := Started(s, n);
    m.(groups := map[], waiters := m.waiters[n := m.waiters[n].(phase := Completed)], active := 0, completed := m.completed + 1,
       lru := Remember(m.budget, Remember(m.budget, m.lru, false, History(HistoryKey(c, READER), lasted, estimate, 0, 0)), false,
                       History(HistoryKey(c, ""), lasted, estimate, 0, 0)),
       touches := s.touches + Debts(c, elapsed))
  }

  lemma FinishAlone(s: State, b: Budget, n: nat, elapsed: nat)
    requires Quiet(s, b, n)
    ensures IsRunning(Started(s, n), n) && Finish(Started(s, n), n, elapsed, AlwaysGo()) == Left(s, n, elapsed)
  {
    hide Remember, Forget, Name, Inv;
    var c, m := Name(n), Started(s, n);
    var m1 := Complete(m, n, elapsed);
    var g := m1.groups[c];
    assert IdleReader(g.readers[READER]) && g.active == 0;
    var m2 := RetireReader(m1, c, READER, 0);
    assert g.readers - {READER} == map[];
    assert IdleGroup(m2.groups[c]);
    assert m2.groups - {c} == map[];
    var m3 := RetireGroup(m2, c, 0);
    assert m3.touches == Left(s, n, elapsed).touches;
  }

  lemma DoneAlone(s: State, b: Budget, n: nat, elapsed: nat)
    requires Quiet(s, b, n) && Inv(Started(s, n))
    ensures Release(Started(s, n), n, elapsed, AlwaysGo()) == Left(s, n, elapsed)
  {
    hide Core, NoIdle, Saturated, Forget, Remember, Finish, Name;
    var m := Started(s, n);
    FinishAlone(s, b, n, elapsed);
    FinishKeeps(m, n, elapsed, AlwaysGo());
    var m' := Left(s, n, elapsed);
    assert ReadyGroups(m'.groups) == map[];
    assert Dispatch(m', AlwaysGo()) == m';
  }

  lemma {:induction false} ForgottenIn(lru: seq<History>, key: HistoryKey, c: string)
    requires Unheard(lru, c)
    ensures Unheard(Forget(lru, key), c)
  {
    if lru != [] {
      assert lru[0] in lru && forall h :: h in lru[1..] ==> h in lru;
      ForgottenIn(lru[1..], key, c);
    }
  }

  lemma UnheardKept(b: Budget, lru: seq<History>, h: History, c: string)
    requires Unheard(lru, c) && h.key.community != c
    ensures Unheard(Remember(b, lru, false, h), c)
  {
    hide HistoryBound;
    ForgottenIn(lru, h.key, c);
    var all := [h] + Forget(lru, h.key);
    assert Unheard(all, c);
    assert forall x :: x in Trim(all, HistoryBound(b)) ==> x in all;
  }

  lemma StillUnheard(s: State, b: Budget, n: nat, elapsed: nat, m: nat)
    requires Quiet(s, b, n) && m > n
    ensures Unheard(Left(s, n, elapsed).lru, Name(m))
  {
    hide Inv, Remember, Forget, Unheard;
    var c, key, reader := Name(m), HistoryKey(Name(n), ""), HistoryKey(Name(n), READER);
    assert |Name(m)| == m + 1 && |Name(n)| == n + 1;
    ForgottenIn(s.lru, key, c);
    ForgottenIn(Forget(s.lru, key), reader, c);
    var lasted, estimate := Max(MILLISECOND, elapsed), (3 * DEFAULT_ESTIMATE + Max(MILLISECOND, elapsed)) / 4;
    var lru := Forget(Forget(s.lru, key), reader);
    UnheardKept(b, lru, History(reader, lasted, estimate, 0, 0), c);
    UnheardKept(b, Remember(b, lru, false, History(reader, lasted, estimate, 0, 0)), History(key, lasted, estimate, 0, 0), c);
  }

  /** A whole visit leaves all as quiet as it was, and the visitor's debts the newest. */
  lemma VisitAlone(s: State, b: Budget, n: nat, elapsed: nat, rest: Trace)
    requires Quiet(s, b, n) && Admits(b)
    ensures var s' := Left(s, n, elapsed);
            Quiet(s', b, n + 1)
            && (Run(s', rest) ==> Run(s, Visit(n, elapsed) + rest) && After(s, Visit(n, elapsed) + rest) == After(s', rest))
  {
    hide Core, NoIdle, Saturated, Forget, Remember, Unheard, Name, Admit, EvictionRun, Release, Debts;
    ArriveAlone(s, b, n);
    DoneAlone(s, b, n, elapsed);
    forall m: nat | m >= n + 1 ensures Unheard(Left(s, n, elapsed).lru, Name(m)) { StillUnheard(s, b, n, elapsed, m); }
    var trace := Visit(n, elapsed) + rest;
    assert trace[1..][1..] == rest && trace[0] == Visit(n, 0)[0] && trace[1..][0] == (Done(n, elapsed), AlwaysGo());
  }

  // ---------- Many visits ----------

  function Visits(n: nat, count: nat): Trace
    decreases count
  {
    if count == 0 then [] else Visit(n, 0) + Visits(n + 1, count - 1)
  }

  function DebtsOver(n: nat, count: nat): seq<Touch>
    decreases count
  {
    if count == 0 then [] else Debts(Name(n), 0) + DebtsOver(n + 1, count - 1)
  }

  lemma QuietHere(s: State, b: Budget, n: nat)
    requires Quiet(s, b, n)
    ensures s.budget == b && s.clock == 0
  {
  }

  lemma LeftTouches(s: State, n: nat, elapsed: nat)
    ensures Left(s, n, elapsed).touches == s.touches + Debts(Name(n), elapsed)
  {
  }

  lemma {:induction false} VisitsAlone(s: State, b: Budget, n: nat, count: nat)
    requires Quiet(s, b, n) && Admits(b)
    ensures Run(s, Visits(n, count))
    ensures var s' := After(s, Visits(n, count)); s'.budget == b && s'.clock == 0 && s'.touches == s.touches + DebtsOver(n, count)
    decreases count
  {
    hide Quiet, Admits, Debts, Unheard, Name, Visit, Left, Next, Enabled, Core, NoIdle, Saturated;
    if count == 0 {
      QuietHere(s, b, n);
      assert s.touches + [] == s.touches;
    } else {
      LeftTouches(s, n, 0);
      var s1 := Left(s, n, 0);
      VisitAlone(s, b, n, 0, Visits(n + 1, count - 1));
      VisitsAlone(s1, b, n + 1, count - 1);
      assert s.touches + Debts(Name(n), 0) + DebtsOver(n + 1, count - 1) == s.touches + DebtsOver(n, count);
    }
  }

  function CommunityOf(t: Touch): string {
    match t
    case Kept(h) => h.key.community
    case Gone(key) => key.community
    case GoneAll(c) => c
  }

  /** Each visitor in turn, its community's debt last. */
  lemma {:induction false} DebtsInTurn(n: nat, count: nat)
    ensures |DebtsOver(n, count)| == 4 * count
    ensures forall j :: 0 <= j < 4 * count ==> CommunityOf(DebtsOver(n, count)[j]) == Name(n + j / 4)
    ensures forall i :: 0 <= i < count ==> IsGroupDebt(DebtsOver(n, count), 4 * i + 3, n + i)
    decreases count
  {
    hide Name;
    if count > 0 {
      DebtsInTurn(n + 1, count - 1);
      var first, later, all := Debts(Name(n), 0), DebtsOver(n + 1, count - 1), DebtsOver(n, count);
      assert all == first + later;
      forall j | 0 <= j < 4 * count ensures CommunityOf(all[j]) == Name(n + j / 4) {
        if j < 4 { assert n + j / 4 == n; } else { assert all[j] == later[j - 4] && n + j / 4 == n + 1 + (j - 4) / 4; }
      }
      forall i | 0 <= i < count ensures IsGroupDebt(all, 4 * i + 3, n + i) {
        if i > 0 { assert IsGroupDebt(later, 4 * (i - 1) + 3, n + 1 + (i - 1)) && all[4 * i + 3] == later[4 * (i - 1) + 3]; }
      }
    }
  }

  lemma NameLength(n: nat)
    ensures |Name(n)| == n + 1
  {
  }

  ghost predicate IsGroupDebt(touches: seq<Touch>, j: nat, n: nat) {
    j < |touches| && touches[j].Kept? && touches[j].h.key == HistoryKey(Name(n), "")
  }

  function GroupKeys(n: nat, count: nat): set<HistoryKey> {
    if count == 0 then {} else GroupKeys(n, count - 1) + {HistoryKey(Name(n + count - 1), "")}
  }

  lemma {:induction false} GroupKeysAre(n: nat, count: nat)
    ensures |GroupKeys(n, count)| == count
    ensures forall k :: k in GroupKeys(n, count) ==> exists m: nat :: n <= m < n + count && k == HistoryKey(Name(m), "")
    ensures forall k :: k in GroupKeys(n, count) ==> |k.community| <= n + count
  {
    hide Name;
    if count > 0 {
      GroupKeysAre(n, count - 1);
      var last := HistoryKey(Name(n + count - 1), "");
      NameLength(n + count - 1);
      assert |last.community| == n + count && last !in GroupKeys(n, count - 1);
    }
  }

  lemma {:induction false} StaysNewer(touches: seq<Touch>, since: nat, j: nat, n: nat)
    requires since <= j < n <= |touches| && touches[j].Kept?
    requires forall i :: j < i < n ==> !Touching(touches[i], touches[j].h.key)
    ensures touches[j].h.key in Newer(touches, since, n)
    decreases n
  {
    if n > j + 1 { StaysNewer(touches, since, j, n - 1); }
  }

  /** After as many visits as the list holds, anything kept before them is crowded out. */
  lemma VisitsCrowd(b: Budget, before: seq<Touch>, n: nat, since: nat)
    requires since <= |before|
    ensures Crowded(b, before + DebtsOver(n, HistoryBound(b)), since)
  {
    hide HistoryBound, Newer, DebtsOver, GroupKeys;
    var count := HistoryBound(b);
    var later := DebtsOver(n, count);
    var all := before + later;
    DebtsInTurn(n, count);
    GroupKeysAre(n, count);
    forall k | k in GroupKeys(n, count) ensures k in Newer(all, since, |all|) {
      var m: nat :| n <= m < n + count && k == HistoryKey(Name(m), "");
      VisitorNewer(before, n, count, since, m - n);
    }
    NoMore(GroupKeys(n, count), Newer(all, since, |all|));
  }

  lemma VisitorNewer(before: seq<Touch>, n: nat, count: nat, since: nat, i: nat)
    requires since <= |before| && i < count
    ensures var all := before + DebtsOver(n, count); HistoryKey(Name(n + i), "") in Newer(all, since, |all|)
  {
    hide Newer, DebtsOver;
    var later := DebtsOver(n, count);
    var all := before + later;
    DebtsInTurn(n, count);
    var j := |before| + (4 * i + 3);
    assert IsGroupDebt(later, 4 * i + 3, n + i) && all[j] == later[4 * i + 3];
    forall l | j < l < |all| ensures !Touching(all[l], HistoryKey(Name(n + i), "")) {
      var k := l - |before|;
      assert all[l] == later[k] && CommunityOf(later[k]) == Name(n + k / 4);
      assert |Name(n + k / 4)| == n + k / 4 + 1 && |Name(n + i)| == n + i + 1;
    }
    StaysNewer(all, since, j, |all|);
  }

  // ---------- The debt is lost ----------

  /** The first visitor works as long as you like; then as many others as the list holds come and go,
      all within one instant. Both its community and its reader return owing nothing. */
  lemma DebtCanBeLost(b: Budget, elapsed: nat, now: int) returns (trace: Trace)
    requires Admits(b)
    ensures Inv(Init(b)) && Run(Init(b), trace)
    ensures var s, key, reader := After(Init(b), trace), HistoryKey(Name(0), ""), HistoryKey(Name(0), READER);
            s.clock == 0
            && KeptAt(s.touches, key, 3, elapsed) && s.touches[3].h.at == 0 && ServiceOnReturn(s, key, s.clock, now) == 0
            && KeptAt(s.touches, reader, 2, elapsed) && s.touches[2].h.at == 0 && ServiceOnReturn(s, reader, s.clock, now) == 0
  {
    hide Inv, Run, Crowded, Recorded, ServiceOnReturn, KeptAt, HistoryBound, Init, After, Quiet, Admits, Left, Visit, Visits, Debts, DebtsOver,
      Name;
    InitOk(b);
    InitQuiet(b);
    var count := HistoryBound(b);
    var first := Debts(Name(0), elapsed);
    VisitAlone(Init(b), b, 0, elapsed, Visits(1, count));
    VisitsAlone(Left(Init(b), 0, elapsed), b, 1, count);
    trace := Visit(0, elapsed) + Visits(1, count);
    var s := After(Init(b), trace);
    LeftTouches(Init(b), 0, elapsed);
    InitOwesNothing(b, first);
    RecordedFromStart(b, trace);
    FirstKept(elapsed, count);
    VisitsCrowd(b, first, 1, 4);
    VisitsCrowd(b, first, 1, 3);
    Forgotten(s, HistoryKey(Name(0), ""), 3, elapsed, now);
    Forgotten(s, HistoryKey(Name(0), READER), 2, elapsed, now);
  }

  lemma InitQuiet(b: Budget)
    requires Inv(Init(b))
    ensures Quiet(Init(b), b, 0)
  {
    hide Inv;
  }

  lemma InitOwesNothing(b: Budget, more: seq<Touch>)
    ensures Init(b).touches + more == more
  {
    assert [] + more == more;
  }

  lemma FirstKept(elapsed: nat, count: nat)
    ensures |Debts(Name(0), elapsed)| == 4
    ensures var touches := Debts(Name(0), elapsed) + DebtsOver(1, count);
            KeptAt(touches, HistoryKey(Name(0), ""), 3, elapsed) && touches[3].h.at == 0
            && KeptAt(touches, HistoryKey(Name(0), READER), 2, elapsed) && touches[2].h.at == 0
  {
    hide DebtsOver;
    var first, later := Debts(Name(0), elapsed), DebtsOver(1, count);
    var touches := first + later;
    DebtsInTurn(1, count);
    forall j | 4 <= j < |touches| ensures |CommunityOf(touches[j])| > |Name(0)| {
      assert touches[j] == later[j - 4] && CommunityOf(later[j - 4]) == Name(1 + (j - 4) / 4);
    }
    assert touches[2] == first[2] && touches[3] == first[3];
  }

  lemma Forgotten(s: State, key: HistoryKey, i: nat, least: int, now: int)
    requires Recorded(s) && KeptAt(s.touches, key, i, least) && Crowded(s.budget, s.touches, i + 1)
    ensures ServiceOnReturn(s, key, s.clock, now) == s.clock
  {
    hide Recorded, Crowded;
    RemembersKept(s, key, i, least, s.clock, now);
  }
}

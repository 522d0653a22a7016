/** The state of the fair search scheduler, and the tallies its counters must agree with.

  A request is a waiter. The scheduler keeps a group per community and, inside it, a
  reader per verified connection; both carry virtual service, and a reader carries a FIFO
  of waiters. `Tally` adds up a measure over every waiter that ever took the lock, so that
  `TallyUpdate`, about one changed waiter, serves every counter in the scheduler.
 */
module SchedulerState {

  type Wid = nat

  const MILLISECOND := 1_000_000
  const DEFAULT_ESTIMATE := 50 * MILLISECOND
  const HISTORY_KEPT := 60_000 * MILLISECOND
  const REQUEST_ALLOWANCE := 32 * 1024

  datatype Budget = Budget(workers: nat, queue: nat, queueBytes: nat)

  /** A reader key of "" names the community itself. */
  datatype HistoryKey = HistoryKey(community: string, reader: string)

  datatype History = History(key: HistoryKey, service: int, estimate: int, clock: int, at: int)

  /** What befell remembered debt: kept when its holder left, gone when the holder returned or left
      a deleted community, and gone with its whole community. */
  datatype Touch = Kept(h: History) | Gone(key: HistoryKey) | GoneAll(community: string)

  datatype Phase =
    | Queued
    | Running(charged: int, readerCharged: int)
    | Completed
    | Rejected
    | Expired
    | Cancelled

  datatype Waiter = Waiter(cid: string, rid: string, bytes: nat, phase: Phase, closed: bool)

  datatype Reader = Reader(queue: seq<Wid>, active: int, service: int, estimate: int, order: int)

  datatype Group = Group(readers: map<string, Reader>, active: int, waiting: int, service: int,
                         estimate: int, order: int, clock: int, discardHistory: bool)

  /** `lru` lists remembered service debt, most recent first. For the statements about whole runs,
      `log` records which community each started request belonged to, and `touches` what befell
      the remembered debt; no step reads either. */
  datatype State = State(budget: Budget, groups: map<string, Group>, waiters: map<Wid, Waiter>, lru: seq<History>,
                         active: int, waiting: int, bytes: int, clock: int, order: int,
                         completed: int, rejected: int, expired: int, cancelled: int, log: seq<string>,
                         touches: seq<Touch>)

  predicate Seated(s: State, c: string, r: string) {
    c in s.groups && r in s.groups[c].readers
  }

  // ---------- Heap keys ----------

  datatype Key = Key(active: int, service: int, order: int)

  /** Fewest running requests first, then least service, then earliest turn. */
  predicate Before(a: Key, b: Key) {
    if a.active != b.active then a.active < b.active
    else if a.service == b.service then a.order < b.order
    else a.service < b.service
  }

  function GroupKey(g: Group): Key { Key(g.active, g.service, g.order) }

  function ReaderKey(rd: Reader): Key { Key(rd.active, rd.service, rd.order) }

  function ReadyGroups(groups: map<string, Group>): map<string, Key> {
    map c | c in groups && groups[c].waiting > 0 :: GroupKey(groups[c])
  }

  function ReadyReaders(g: Group): map<string, Key> {
    map r | r in g.readers && g.readers[r].queue != [] :: ReaderKey(g.readers[r])
  }

  /** No two members took their turn at the same moment. */
  ghost predicate DistinctTurns(keys: map<string, Key>) {
    forall a, b :: a in keys && b in keys && a != b ==> keys[a].order != keys[b].order
  }

  ghost predicate IsLeast(keys: map<string, Key>, a: string) {
    a in keys && forall b :: b in keys && b != a ==> Before(keys[a], keys[b])
  }

  predicate GroupFirst(a: Group, b: Group) {
    a.active < b.active
    || (a.active == b.active && (a.service < b.service || (a.service == b.service && a.order < b.order)))
  }

  predicate ReaderFirst(a: Reader, b: Reader) {
    a.active < b.active
    || (a.active == b.active && (a.service < b.service || (a.service == b.service && a.order < b.order)))
  }

  /** Of the communities with work waiting, this one comes first, and the same of a community's readers. */
  ghost predicate FirstGroup(groups: map<string, Group>, c: string) {
    c in groups && groups[c].waiting > 0
    && forall d :: d in groups && d != c && groups[d].waiting > 0 ==> GroupFirst(groups[c], groups[d])
  }

  ghost predicate FirstReader(g: Group, r: string) {
    r in g.readers && g.readers[r].queue != []
    && forall q :: q in g.readers && q != r && g.readers[q].queue != [] ==> ReaderFirst(g.readers[r], g.readers[q])
  }

  lemma FirstAmongGroups(groups: map<string, Group>, c: string)
    requires IsLeast(ReadyGroups(groups), c)
    ensures FirstGroup(groups, c)
  {
    forall d | d in groups && d != c && groups[d].waiting > 0 ensures GroupFirst(groups[c], groups[d]) {
      assert d in ReadyGroups(groups);
    }
  }

  lemma FirstAmongReaders(g: Group, r: string)
    requires IsLeast(ReadyReaders(g), r)
    ensures FirstReader(g, r)
  {
    forall q | q in g.readers && q != r && g.readers[q].queue != [] ensures ReaderFirst(g.readers[r], g.readers[q]) {
      assert q in ReadyReaders(g);
    }
  }

  lemma {:induction false} LeastExists(keys: map<string, Key>)
    requires keys != map[] && DistinctTurns(keys)
    ensures exists a :: IsLeast(keys, a)
    decreases |keys|
  {
    var a :| a in keys;
    var rest := keys - {a};
    assert rest.Keys == keys.Keys - {a};
    if rest == map[] {
      assert forall b :: b in keys ==> b == a || b in rest.Keys;
      assert IsLeast(keys, a);
    } else {
      LeastExists(rest);
      var m :| IsLeast(rest, m);
      assert forall b :: b in keys && b != a ==> b in rest && rest[b] == keys[b];
      if Before(keys[a], keys[m]) {
        assert IsLeast(keys, a);
      } else {
        assert IsLeast(keys, m);
      }
    }
  }

  ghost function Least(keys: map<string, Key>): (a: string)
    requires keys != map[] && DistinctTurns(keys)
    ensures IsLeast(keys, a)
  {
    LeastExists(keys);
    var a :| IsLeast(keys, a);
    a
  }

  // ---------- Tallies ----------

  datatype Measure =
    | Arrived
    | WaitingCount
    | WaitingBytes
    | ActiveCount
    | CompletedCount
    | RejectedCount
    | ExpiredCount
    | CancelledCount
    | GroupWaiting(c: string)
    | GroupActive(c: string)
    | GroupCharge(c: string)
    | ReaderWaiting(c: string, r: string)
    | ReaderActive(c: string, r: string)
    | ReaderCharge(c: string, r: string)
    | ReaderStarted(c: string, r: string)

  function Weigh(m: Measure, w: Waiter): int {
    match m
    case Arrived => 1
    case WaitingCount => if w.phase.Queued? then 1 else 0
    case WaitingBytes => if w.phase.Queued? then w.bytes else 0
    case ActiveCount => if w.phase.Running? then 1 else 0
    case CompletedCount => if w.phase.Completed? then 1 else 0
    case RejectedCount => if w.phase.Rejected? then 1 else 0
    case ExpiredCount => if w.phase.Expired? then 1 else 0
    case CancelledCount => if w.phase.Cancelled? then 1 else 0
    case GroupWaiting(c) => if w.phase.Queued? && w.cid == c then 1 else 0
    case GroupActive(c) => if w.phase.Running? && w.cid == c then 1 else 0
    case GroupCharge(c) => if w.phase.Running? && w.cid == c then w.phase.charged else 0
    case ReaderWaiting(c, r) => if w.phase.Queued? && w.cid == c && w.rid == r then 1 else 0
    case ReaderActive(c, r) => if w.phase.Running? && w.cid == c && w.rid == r then 1 else 0
    case ReaderCharge(c, r) => if w.phase.Running? && w.cid == c && w.rid == r then w.phase.readerCharged else 0
    case ReaderStarted(c, r) => if (w.phase.Running? || w.phase.Completed?) && w.cid == c && w.rid == r then 1 else 0
  }

  ghost function Tally(ws: map<Wid, Waiter>, m: Measure): int
    decreases |ws|
  {
    if ws == map[] then 0 else
      var w :| w in ws;
      assert (ws - {w}).Keys == ws.Keys - {w};
      Weigh(m, ws[w]) + Tally(ws - {w}, m)
  }

  lemma OneFewer(ws: map<Wid, Waiter>, w: Wid)
    requires w in ws
    ensures (ws - {w}).Keys == ws.Keys - {w} && |ws - {w}| < |ws|
  {
    var rest := ws - {w};
    assert rest.Keys == ws.Keys - {w};
  }

  lemma {:induction false} TallyPick(ws: map<Wid, Waiter>, m: Measure, w: Wid)
    requires w in ws
    ensures Tally(ws, m) == Weigh(m, ws[w]) + Tally(ws - {w}, m)
    decreases |ws|
  {
    var v :| v in ws && Tally(ws, m) == Weigh(m, ws[v]) + Tally(ws - {v}, m);
    if v != w {
      hide Tally, Weigh;
      OneFewer(ws, v);
      TallyPick(ws - {v}, m, w);
      OneFewer(ws, w);
      TallyPick(ws - {w}, m, v);
      assert ws - {v} - {w} == ws - {w} - {v};
    }
  }

  /** Replacing one waiter moves every tally by that waiter's change in weight. */
  lemma TallyUpdate(ws: map<Wid, Waiter>, w: Wid, x: Waiter)
    ensures forall m :: Tally(ws[w := x], m)
                     == Tally(ws, m) - (if w in ws then Weigh(m, ws[w]) else 0) + Weigh(m, x)
  {
    forall m
      ensures Tally(ws[w := x], m) == Tally(ws, m) - (if w in ws then Weigh(m, ws[w]) else 0) + Weigh(m, x)
    {
      TallyPick(ws[w := x], m, w);
      if w in ws {
        TallyPick(ws, m, w);
        assert ws[w := x] - {w} == ws - {w};
      } else {
        assert ws[w := x] - {w} == ws;
      }
    }
  }

  /** Charges are never negative, so no tally is. */
  ghost predicate ChargesPositive(ws: map<Wid, Waiter>) {
    forall w :: w in ws && ws[w].phase.Running? ==>
      ws[w].phase.charged >= MILLISECOND && ws[w].phase.readerCharged >= MILLISECOND
  }

  lemma {:induction false} TallyAtLeast(ws: map<Wid, Waiter>, m: Measure)
    requires ChargesPositive(ws)
    ensures Tally(ws, m) >= 0
    ensures forall w :: w in ws ==> Weigh(m, ws[w]) <= Tally(ws, m)
    decreases |ws|
  {
    forall w | w in ws
      ensures 0 <= Weigh(m, ws[w]) <= Tally(ws, m)
    {
      TallyPick(ws, m, w);
      assert (ws - {w}).Keys == ws.Keys - {w};
      TallyAtLeast(ws - {w}, m);
    }
    if ws != map[] {
      var w :| w in ws;
      assert 0 <= Weigh(m, ws[w]);
    }
  }

  /** A positive tally has a waiter behind it. */
  lemma {:induction false} TallyWitness(ws: map<Wid, Waiter>, m: Measure) returns (w: Wid)
    requires Tally(ws, m) > 0
    ensures w in ws && Weigh(m, ws[w]) > 0
    decreases |ws|
  {
    var v :| v in ws && Tally(ws, m) == Weigh(m, ws[v]) + Tally(ws - {v}, m);
    if Weigh(m, ws[v]) > 0 {
      w := v;
    } else {
      assert (ws - {v}).Keys == ws.Keys - {v};
      w := TallyWitness(ws - {v}, m);
    }
  }

  lemma {:induction false} TallyMonotone(ws: map<Wid, Waiter>, m: Measure, n: Measure)
    requires forall w :: w in ws ==> Weigh(m, ws[w]) <= Weigh(n, ws[w])
    ensures Tally(ws, m) <= Tally(ws, n)
    decreases |ws|
  {
    if ws != map[] {
      var w :| w in ws;
      assert (ws - {w}).Keys == ws.Keys - {w};
      TallyMonotone(ws - {w}, m, n);
      TallyPick(ws, m, w);
      TallyPick(ws, n, w);
    }
  }

  /** If nobody weighs anything, the tally is nothing. */
  lemma {:induction false} TallyNothing(ws: map<Wid, Waiter>, m: Measure)
    requires forall w :: w in ws ==> Weigh(m, ws[w]) == 0
    ensures Tally(ws, m) == 0
    decreases |ws|
  {
    if ws != map[] {
      var w :| w in ws;
      assert (ws - {w}).Keys == ws.Keys - {w};
      TallyNothing(ws - {w}, m);
      TallyPick(ws, m, w);
    }
  }

  /** Each waiter is in exactly one phase. */
  lemma {:induction false} TallyPartition(ws: map<Wid, Waiter>)
    ensures |ws| == Tally(ws, CompletedCount) + Tally(ws, RejectedCount) + Tally(ws, ExpiredCount)
                  + Tally(ws, CancelledCount) + Tally(ws, ActiveCount) + Tally(ws, WaitingCount)
    decreases |ws|
  {
    if ws != map[] {
      var w :| w in ws;
      assert (ws - {w}).Keys == ws.Keys - {w};
      TallyPartition(ws - {w});
      TallyPick(ws, CompletedCount, w);
      TallyPick(ws, RejectedCount, w);
      TallyPick(ws, ExpiredCount, w);
      TallyPick(ws, CancelledCount, w);
      TallyPick(ws, ActiveCount, w);
      TallyPick(ws, WaitingCount, w);
    }
  }

  // ---------- Queues ----------

  ghost predicate Distinct<T>(q: seq<T>) {
    forall i, j :: 0 <= i < j < |q| ==> q[i] != q[j]
  }

  function Without(q: seq<Wid>, w: Wid): seq<Wid> {
    if q == [] then [] else if q[0] == w then q[1..] else [q[0]] + Without(q[1..], w)
  }

  lemma {:induction false} WithoutKeeps(q: seq<Wid>, w: Wid)
    requires Distinct(q) && w in q
    ensures |Without(q, w)| == |q| - 1 && Distinct(Without(q, w))
    ensures forall v :: v in Without(q, w) <==> v in q && v != w
  {
    assert q == [q[0]] + q[1..];
    if q[0] != w {
      assert Distinct(q[1..]);
      WithoutKeeps(q[1..], w);
      assert q[0] !in q[1..];
    } else {
      assert Distinct(q[1..]) && w !in q[1..];
    }
  }
}

/** The steps a lock holder takes, as functions from one scheduler state to the next.

  A step that the source leaves to the surroundings takes it as an argument: whether a
  waiter's context is done or its deadline passed when it is popped (`fate`), and what the
  clock reads when a group is retired (`at`).
 */
module SchedulerSteps {
  import opened SchedulerState

  datatype Fate = Go | ContextDone | PastDeadline

  datatype Env = Env(fate: Wid -> Fate, at: HistoryKey -> int)

  datatype Option<T> = None | Some(value: T)

  function Max(a: int, b: int): int { if a < b then b else a }

  function Min(a: int, b: int): int { if a < b then a else b }

  // ---------- Remembered service debt ----------

  function HistoryBound(b: Budget): nat { Max(64, Min(4096, 2 * b.queue)) }

  function Forget(lru: seq<History>, key: HistoryKey): seq<History> {
    if lru == [] then []
    else if lru[0].key == key then Forget(lru[1..], key)
    else [lru[0]] + Forget(lru[1..], key)
  }

  function ForgetCommunity(lru: seq<History>, c: string): seq<History> {
    if lru == [] then []
    else if lru[0].key.community == c then ForgetCommunity(lru[1..], c)
    else [lru[0]] + ForgetCommunity(lru[1..], c)
  }

  function Recall(lru: seq<History>, key: HistoryKey): Option<History> {
    if lru == [] then None
    else if lru[0].key == key then Some(lru[0])
    else Recall(lru[1..], key)
  }

  function Trim(lru: seq<History>, bound: nat): seq<History> {
    if |lru| > bound then lru[..bound] else lru
  }

  function Remember(b: Budget, lru: seq<History>, discard: bool, h: History): seq<History> {
    var rest := Forget(lru, h.key);
    if discard then rest else Trim([h] + rest, HistoryBound(b))
  }

  function Departed(discard: bool, h: History): Touch { if discard then Gone(h.key) else Kept(h) }

  /** What a key comes back with, if it is remembered and not for too long. */
  function Remembered(lru: seq<History>, key: HistoryKey, now: int): Option<History> {
    match Recall(lru, key)
    case Some(h) => if now - h.at < HISTORY_KEPT then Some(h) else None
    case None => None
  }

  function GroupFrom(debt: Option<History>, clock: int): Group {
    match debt
    case Some(h) => Group(map[], 0, 0, Max(clock, h.service), h.estimate, 0, h.clock, false)
    case None => Group(map[], 0, 0, clock, DEFAULT_ESTIMATE, 0, 0, false)
  }

  function ReaderFrom(debt: Option<History>, clock: int): Reader {
    match debt
    case Some(h) => Reader([], 0, Max(clock, h.service), h.estimate, 0)
    case None => Reader([], 0, clock, DEFAULT_ESTIMATE, 0)
  }

  function RestoreGroup(s: State, c: string, now: int): Group {
    GroupFrom(Remembered(s.lru, HistoryKey(c, ""), now), s.clock)
  }

  function RestoreReader(s: State, c: string, r: string, clock: int, now: int): Reader {
    ReaderFrom(Remembered(s.lru, HistoryKey(c, r), now), clock)
  }

  // ---------- Retiring idle readers and groups ----------

  predicate IdleReader(rd: Reader) { rd.active == 0 && rd.queue == [] }

  predicate IdleGroup(g: Group) { g.active == 0 && g.waiting == 0 }

  function RetireReader(s: State, c: string, r: string, at: int): State
    requires Seated(s, c, r)
  {
    var g := s.groups[c];
    var rd := g.readers[r];
    var h := History(HistoryKey(c, r), rd.service, rd.estimate, 0, at);
    s.(groups := s.groups[c := g.(readers := g.readers - {r})],
       lru := Remember(s.budget, s.lru, g.discardHistory, h), touches := s.touches + [Departed(g.discardHistory, h)])
  }

  function RetireGroup(s: State, c: string, at: int): State
    requires c in s.groups
  {
    var g := s.groups[c];
    var h := History(HistoryKey(c, ""), g.service, g.estimate, g.clock, at);
    s.(groups := s.groups - {c},
       lru := Remember(s.budget, s.lru, g.discardHistory, h), touches := s.touches + [Departed(g.discardHistory, h)])
  }

  /** Retire the reader if it went idle, then the group if it did. */
  function Tidy(s: State, c: string, r: string, env: Env): State
    requires Seated(s, c, r)
  {
    var s1 := if IdleReader(s.groups[c].readers[r]) then RetireReader(s, c, r, env.at(HistoryKey(c, r))) else s;
    if IdleGroup(s1.groups[c]) then RetireGroup(s1, c, env.at(HistoryKey(c, ""))) else s1
  }

  // ---------- Taking a waiter out of its queue ----------

  predicate InQueue(s: State, w: Wid) {
    w in s.waiters && Seated(s, s.waiters[w].cid, s.waiters[w].rid)
    && s.waiters[w].phase.Queued? && !s.waiters[w].closed
    && w in s.groups[s.waiters[w].cid].readers[s.waiters[w].rid].queue
  }

  function Count(s: State, p: Phase): State {
    match p
    case Completed => s.(completed := s.completed + 1)
    case Rejected => s.(rejected := s.rejected + 1)
    case Expired => s.(expired := s.expired + 1)
    case Cancelled => s.(cancelled := s.cancelled + 1)
    case Queued => s
    case Running(_, _) => s
  }

  /** The part of a withdrawal before anything is retired. */
  function Dequeue(s: State, w: Wid, p: Phase, close: bool): State
    requires InQueue(s, w)
  {
    var x := s.waiters[w];
    var g := s.groups[x.cid];
    var rd := g.readers[x.rid];
    Count(s.(groups := s.groups[x.cid := g.(waiting := g.waiting - 1,
                                            readers := g.readers[x.rid := rd.(queue := Without(rd.queue, w))])],
             waiters := s.waiters[w := x.(phase := p, closed := close)],
             waiting := s.waiting - 1,
             bytes := s.bytes - x.bytes), p)
  }

  /** A queued waiter leaves without running: evicted, expired, cancelled or dropped. */
  function Withdraw(s: State, w: Wid, p: Phase, close: bool, env: Env): State
    requires InQueue(s, w)
  {
    Tidy(Dequeue(s, w, p, close), s.waiters[w].cid, s.waiters[w].rid, env)
  }

  // ---------- Starting and finishing work ----------

  predicate CanPop(s: State, c: string, r: string) {
    Seated(s, c, r) && s.groups[c].readers[r].queue != []
    && var w := s.groups[c].readers[r].queue[0]; InQueue(s, w) && s.waiters[w].cid == c && s.waiters[w].rid == r
  }

  function Start(s: State, c: string, r: string): State
    requires CanPop(s, c, r)
  {
    var g := s.groups[c];
    var rd := g.readers[r];
    var w := rd.queue[0];
    var x := s.waiters[w];
    var rd' := rd.(queue := rd.queue[1..], service := rd.service + rd.estimate, active := rd.active + 1);
    var g' := g.(waiting := g.waiting - 1, clock := Max(g.clock, rd.service), service := g.service + g.estimate,
                 active := g.active + 1, readers := g.readers[r := rd']);
    s.(groups := s.groups[c := g'],
       waiters := s.waiters[w := x.(phase := Running(g.estimate, rd.estimate), closed := true)],
       waiting := s.waiting - 1, bytes := s.bytes - x.bytes,
       clock := Max(s.clock, g.service), active := s.active + 1, log := s.log + [c])
  }

  /** A popped waiter runs, unless its context is done or its deadline has passed. */
  function Serve(s: State, c: string, r: string, env: Env): State
    requires CanPop(s, c, r)
  {
    var w := s.groups[c].readers[r].queue[0];
    match env.fate(w)
    case Go => Start(s, c, r)
    case ContextDone => Dequeue(s, w, Cancelled, true)
    case PastDeadline => Dequeue(s, w, Expired, true)
  }

  /** A reader, and then its group, that still has work queues for another turn. */
  function NextTurn(s: State, c: string, r: string): State
    requires Seated(s, c, r)
  {
    var g := s.groups[c];
    var s1 := if g.readers[r].queue == [] then s
              else s.(order := s.order + 1,
                      groups := s.groups[c := g.(readers := g.readers[r := g.readers[r].(order := s.order + 1)])]);
    if g.waiting <= 0 then s1
    else s1.(order := s1.order + 1, groups := s1.groups[c := s1.groups[c].(order := s1.order + 1)])
  }

  function Pop(s: State, c: string, r: string, env: Env): State
    requires CanPop(s, c, r)
  {
    Tidy(NextTurn(Serve(s, c, r, env), c, r), c, r, env)
  }

  predicate IsRunning(s: State, w: Wid) {
    w in s.waiters && s.waiters[w].phase.Running? && Seated(s, s.waiters[w].cid, s.waiters[w].rid)
  }

  /** Charges become observed durations; nobody banks idle time below the clock. */
  function Settle(service: int, duration: int, charged: int, clock: int): int {
    Max(clock, Max(0, service + (duration - charged)))
  }

  function Complete(s: State, w: Wid, elapsed: int): State
    requires IsRunning(s, w)
  {
    var x := s.waiters[w];
    var g := s.groups[x.cid];
    var rd := g.readers[x.rid];
    var duration := Max(MILLISECOND, elapsed);
    var rd' := rd.(service := Settle(rd.service, duration, x.phase.readerCharged, g.clock),
                   estimate := (rd.estimate * 3 + duration) / 4, active := rd.active - 1);
    var g' := g.(service := Settle(g.service, duration, x.phase.charged, s.clock),
                 estimate := (g.estimate * 3 + duration) / 4, active := g.active - 1, readers := g.readers[x.rid := rd']);
    s.(groups := s.groups[x.cid := g'], waiters := s.waiters[w := x.(phase := Completed)],
       active := s.active - 1, completed := s.completed + 1)
  }

  // ---------- Admission ----------

  predicate Full(s: State, bytes: int) {
    s.waiting >= s.budget.queue || s.bytes + bytes > s.budget.queueBytes
  }

  function GroupWaitingNow(s: State, c: string): int { if c in s.groups then s.groups[c].waiting else 0 }

  function QueueLengthNow(s: State, c: string, r: string): nat {
    if Seated(s, c, r) then |s.groups[c].readers[r].queue| else 0
  }

  /** `d` is a longest queue in `g` among those longer than `minimum`. */
  ghost predicate IsLongestReader(g: Group, minimum: int, d: string) {
    d in g.readers && |g.readers[d].queue| > Max(0, minimum)
    && forall r :: r in g.readers ==> |g.readers[r].queue| <= |g.readers[d].queue|
  }

  ghost predicate NoLongerReader(g: Group, minimum: int) {
    forall r :: r in g.readers ==> |g.readers[r].queue| <= Max(0, minimum)
  }

  ghost predicate IsLargestGroup(s: State, c: string, d: string) {
    d in s.groups && s.groups[d].waiting > GroupWaitingNow(s, c) + 1
    && forall o :: o in s.groups ==> s.groups[o].waiting <= s.groups[d].waiting
  }

  ghost predicate NoLargerGroup(s: State, c: string) {
    forall o :: o in s.groups ==> s.groups[o].waiting <= GroupWaitingNow(s, c) + 1
  }

  /** Whose newest waiter makes room for reader `r` of community `c`: a strictly longer
      community first, else a strictly longer reader of the same community. */
  ghost predicate IsDonor(s: State, c: string, r: string, dc: string, dr: string) {
    if NoLargerGroup(s, c) then dc == c && c in s.groups && IsLongestReader(s.groups[c], QueueLengthNow(s, c, r) + 1, dr)
    else IsLargestGroup(s, c, dc) && IsLongestReader(s.groups[dc], -1, dr)
  }

  ghost predicate NoDonor(s: State, c: string, r: string) {
    NoLargerGroup(s, c) && (c in s.groups ==> NoLongerReader(s.groups[c], QueueLengthNow(s, c, r) + 1))
  }

  /** Seat a new waiter behind its reader, (re)opening the reader and the group. */
  function Enqueue(s: State, c: string, r: string, w: Wid, bytes: nat, g0: Group, rd0: Reader): State {
    var g := if c in s.groups then s.groups[c] else g0;
    var rd := if r in g.readers then g.readers[r] else rd0;
    var lru1 := if c in s.groups then s.lru else Forget(s.lru, HistoryKey(c, ""));
    var lru2 := if r in g.readers then lru1 else Forget(lru1, HistoryKey(c, r));
    var touches1 := if c in s.groups then s.touches else s.touches + [Gone(HistoryKey(c, ""))];
    var touches2 := if r in g.readers then touches1 else touches1 + [Gone(HistoryKey(c, r))];
    var order1 := if rd.queue == [] then s.order + 1 else s.order;
    var order2 := if g.waiting <= 0 then order1 + 1 else order1;
    var rd' := rd.(queue := rd.queue + [w], order := if rd.queue == [] then order1 else rd.order);
    var g' := g.(waiting := g.waiting + 1, order := if g.waiting <= 0 then order2 else g.order,
                 readers := g.readers[r := rd']);
    s.(groups := s.groups[c := g'], waiters := s.waiters[w := Waiter(c, r, bytes, Queued, false)], lru := lru2, touches := touches2,
       waiting := s.waiting + 1, bytes := s.bytes + bytes, order := order2)
  }

  function Refuse(s: State, c: string, r: string, w: Wid, bytes: nat): State {
    s.(waiters := s.waiters[w := Waiter(c, r, bytes, Rejected, false)], rejected := s.rejected + 1)
  }
}

/** One reader/writer lock per community, made when first needed and dropped after its last user.

  A state is an object with a reference count and a weighted semaphore; a handle is one use
  of it, from the moment it is looked up until it lets go. Every method is one stretch of code
  under the registry's mutex, or one atomic step of the semaphore, so callers interleave freely.
 */
module LockRegistry {

  const WRITER_WEIGHT: nat := 0x4000_0000

  datatype Kind = Reading | Writing | Working

  datatype Phase = Waiting | Holding | Unlocked | Gone

  datatype Handle = Handle(cid: string, state: nat, kind: Kind, phase: Phase)

  datatype State = State(refs: int, held: nat)

  function Weight(k: Kind): nat {
    match k
    case Reading => 1
    case Writing => WRITER_WEIGHT
    case Working => 0
  }

  // ---------- Sums over handles ----------

  datatype Measure = Users(cid: string) | Held(state: nat)

  function Weigh(m: Measure, h: Handle): nat {
    match m
    case Users(cid) => if h.cid == cid && h.phase != Gone then 1 else 0
    case Held(state) => if h.state == state && h.phase == Holding then Weight(h.kind) else 0
  }

  ghost function Sum(hs: map<nat, Handle>, m: Measure): nat
    decreases |hs|
  {
    if hs == map[] then 0 else
      var h :| h in hs;
      assert (hs - {h}).Keys == hs.Keys - {h};
      Weigh(m, hs[h]) + Sum(hs - {h}, m)
  }

  lemma {:induction false} SumPick(hs: map<nat, Handle>, m: Measure, h: nat)
    requires h in hs
    ensures Sum(hs, m) == Weigh(m, hs[h]) + Sum(hs - {h}, m)
    decreases |hs|
  {
    var v :| v in hs && Sum(hs, m) == Weigh(m, hs[v]) + Sum(hs - {v}, m);
    if v != h {
      assert (hs - {v}).Keys == hs.Keys - {v};
      SumPick(hs - {v}, m, h);
      assert (hs - {h}).Keys == hs.Keys - {h};
      SumPick(hs - {h}, m, v);
      assert hs - {v} - {h} == hs - {h} - {v};
    }
  }

  /** One handle's change moves every sum by its change in weight. */
  lemma SumSet(hs: map<nat, Handle>, h: nat, x: Handle)
    ensures forall m :: Sum(hs[h := x], m) == Sum(hs, m) - (if h in hs then Weigh(m, hs[h]) else 0) + Weigh(m, x)
  {
    hide Sum;
    forall m
      ensures Sum(hs[h := x], m) == Sum(hs, m) - (if h in hs then Weigh(m, hs[h]) else 0) + Weigh(m, x)
    {
      SumPick(hs[h := x], m, h);
      if h in hs {
        SumPick(hs, m, h);
        assert hs[h := x] - {h} == hs - {h};
      } else {
        assert hs[h := x] - {h} == hs;
      }
    }
  }

  lemma SumTwo(hs: map<nat, Handle>, m: Measure, a: nat, b: nat)
    requires a in hs && b in hs && a != b
    ensures Sum(hs, m) >= Weigh(m, hs[a]) + Weigh(m, hs[b])
  {
    SumPick(hs, m, a);
    SumPick(hs - {a}, m, b);
  }

  // ---------- The invariant ----------

  /** A community is registered exactly while it has users, in a state that counts them. */
  ghost predicate Registered(registry: map<string, nat>, states: map<nat, State>, handles: map<nat, Handle>) {
    (forall c :: c in registry <==> Sum(handles, Users(c)) > 0)
    && (forall c :: c in registry ==> registry[c] in states && states[registry[c]].refs == Sum(handles, Users(c)))
    && (forall c, d :: c in registry && d in registry && c != d ==> registry[c] != registry[d])
  }

  /** A semaphore knows what it gave out, and never gives out more than there is. */
  ghost predicate Semaphores(states: map<nat, State>, next: nat, handles: map<nat, Handle>) {
    forall s :: s in states ==> s < next && states[s].held == Sum(handles, Held(s)) <= WRITER_WEIGHT
  }

  /** All users of a community share the state that is registered for it. */
  ghost predicate Shared(registry: map<string, nat>, next: nat, handles: map<nat, Handle>) {
    (forall h :: h in handles && handles[h].phase != Gone ==> handles[h].cid in registry && handles[h].state == registry[handles[h].cid])
    && (forall h :: h in handles ==> handles[h].state < next)
    && (forall h :: h in handles && handles[h].kind == Working ==> handles[h].phase != Holding)
  }

  ghost predicate Inv(registry: map<string, nat>, states: map<nat, State>, next: nat, handles: map<nat, Handle>) {
    Registered(registry, states, handles) && Semaphores(states, next, handles) && Shared(registry, next, handles)
  }

  /** A writer that holds its community's lock holds it alone. */
  lemma WriterIsAlone(registry: map<string, nat>, states: map<nat, State>, next: nat, handles: map<nat, Handle>, a: nat, b: nat)
    requires Inv(registry, states, next, handles) && a in handles && b in handles && a != b
    requires handles[a].phase == Holding && handles[b].phase == Holding && handles[a].cid == handles[b].cid
    ensures handles[a].kind == Reading && handles[b].kind == Reading
  {
    var s := handles[a].state;
    assert handles[b].state == s && s in states;
    SumTwo(handles, Held(s), a, b);
  }

  /** A new state starts with nothing held: nobody ever had it. */
  lemma {:induction false} NobodyHolds(handles: map<nat, Handle>, s: nat)
    requires forall h :: h in handles ==> handles[h].state != s
    ensures Sum(handles, Held(s)) == 0
    decreases |handles|
  {
    if handles != map[] {
      var h :| h in handles;
      assert (handles - {h}).Keys == handles.Keys - {h};
      NobodyHolds(handles - {h}, s);
      SumPick(handles, Held(s), h);
    }
  }

  lemma EnterKeeps(registry: map<string, nat>, states: map<nat, State>, next: nat, handles: map<nat, Handle>,
                   cid: string, kind: Kind, h: nat)
    requires Inv(registry, states, next, handles) && cid in registry && h !in handles
    ensures var s := registry[cid];
            Inv(registry, states[s := states[s].(refs := states[s].refs + 1)], next, handles[h := Handle(cid, s, kind, Waiting)])
  {
    SumSet(handles, h, Handle(cid, registry[cid], kind, Waiting));
    hide Sum;
  }

  lemma EnterNewKeeps(registry: map<string, nat>, states: map<nat, State>, next: nat, handles: map<nat, Handle>,
                      cid: string, kind: Kind, h: nat)
    requires Inv(registry, states, next, handles) && cid !in registry && h !in handles
    ensures Inv(registry[cid := next], states[next := State(1, 0)], next + 1, handles[h := Handle(cid, next, kind, Waiting)])
  {
    hide Sum;
    SumSet(handles, h, Handle(cid, next, kind, Waiting));
    NobodyHolds(handles, next);
    NobodyLeft(registry, states, next, handles, cid);
  }

  lemma NobodyLeft(registry: map<string, nat>, states: map<nat, State>, next: nat, handles: map<nat, Handle>, cid: string)
    requires Inv(registry, states, next, handles) && cid !in registry
    ensures Sum(handles, Users(cid)) == 0
  {
  }

  function WithRefs(states: map<nat, State>, s: nat, refs: int): map<nat, State>
    requires s in states
  {
    states[s := states[s].(refs := refs)]
  }

  lemma LeaveRegistered(registry: map<string, nat>, states: map<nat, State>, next: nat, handles: map<nat, Handle>, h: nat)
    requires Registered(registry, states, handles) && Shared(registry, next, handles) && h in handles && handles[h].phase != Gone
    ensures var cid, s := handles[h].cid, handles[h].state;
            s in states && Registered(if states[s].refs == 1 then registry - {cid} else registry,
                                      WithRefs(states, s, states[s].refs - 1), handles[h := handles[h].(phase := Gone)])
  {
    SumSet(handles, h, handles[h].(phase := Gone));
    hide Sum;
    assert handles[h].cid in registry;
  }

  lemma LeaveShared(registry: map<string, nat>, states: map<nat, State>, next: nat, handles: map<nat, Handle>, h: nat)
    requires Registered(registry, states, handles) && Shared(registry, next, handles) && h in handles && handles[h].phase != Gone
    ensures var cid, s := handles[h].cid, handles[h].state;
            s in states && Shared(if states[s].refs == 1 then registry - {cid} else registry, next, handles[h := handles[h].(phase := Gone)])
  {
    assert handles[h].cid in registry;
    OthersStay(handles, h);
    hide Sum;
  }

  /** A change of phase that keeps what is held of this kind. */
  lemma SameHeld(states: map<nat, State>, now: map<nat, State>, next: nat, handles: map<nat, Handle>, h: nat, phase: Phase)
    requires Semaphores(states, next, handles) && h in handles && handles[h].phase != Holding && phase != Holding
    requires now.Keys == states.Keys && forall s :: s in states ==> now[s].held == states[s].held
    ensures Semaphores(now, next, handles[h := handles[h].(phase := phase)])
  {
    hide Sum;
    SumSet(handles, h, handles[h].(phase := phase));
  }

  /** Whoever else uses the state keeps it registered. */
  lemma LeaveKeeps(registry: map<string, nat>, states: map<nat, State>, next: nat, handles: map<nat, Handle>, h: nat)
    requires Inv(registry, states, next, handles) && h in handles
    requires handles[h].phase == Waiting || handles[h].phase == Unlocked
    ensures var cid, s := handles[h].cid, handles[h].state;
            s in states && Inv(if states[s].refs == 1 then registry - {cid} else registry,
                               WithRefs(states, s, states[s].refs - 1), next, handles[h := handles[h].(phase := Gone)])
  {
    hide Registered, Shared, Semaphores;
    LeaveRegistered(registry, states, next, handles, h);
    LeaveShared(registry, states, next, handles, h);
    var s := handles[h].state;
    SameHeld(states, WithRefs(states, s, states[s].refs - 1), next, handles, h, Gone);
  }

  /** Only what one handle holds of its state changes. */
  lemma HoldingKeeps(registry: map<string, nat>, states: map<nat, State>, next: nat, handles: map<nat, Handle>, h: nat,
                     phase: Phase, held: nat)
    requires Inv(registry, states, next, handles) && h in handles && handles[h].kind != Working
    requires (handles[h].phase == Waiting && phase == Holding) || (handles[h].phase == Holding && phase == Unlocked)
    ensures var s := handles[h].state;
            s in states && states[s].held == Sum(handles, Held(s)) <= WRITER_WEIGHT
            && (phase == Unlocked ==> states[s].held >= Weight(handles[h].kind))
            && (held == (if phase == Holding then states[s].held + Weight(handles[h].kind) else states[s].held - Weight(handles[h].kind))
                && held <= WRITER_WEIGHT
                ==> Inv(registry, states[s := states[s].(held := held)], next, handles[h := handles[h].(phase := phase)]))
  {
    var s := handles[h].state;
    assert handles[h].cid in registry;
    SumSet(handles, h, handles[h].(phase := phase));
    SumPick(handles, Held(s), h);
    hide Sum;
    SameUsers(registry, states, states[s := states[s].(held := held)], next, handles, h, phase);
    hide Registered, Shared;
  }

  lemma SameUsers(registry: map<string, nat>, states: map<nat, State>, now: map<nat, State>, next: nat,
                  handles: map<nat, Handle>, h: nat, phase: Phase)
    requires Registered(registry, states, handles) && Shared(registry, next, handles)
    requires h in handles && handles[h].phase != Gone && phase != Gone && handles[h].kind != Working
    requires now.Keys == states.Keys && forall s :: s in states ==> now[s].refs == states[s].refs
    ensures Registered(registry, now, handles[h := handles[h].(phase := phase)])
    ensures Shared(registry, next, handles[h := handles[h].(phase := phase)])
  {
    hide Sum;
    SumSet(handles, h, handles[h].(phase := phase));
  }

  lemma OthersStay(handles: map<nat, Handle>, h: nat)
    requires h in handles && handles[h].phase != Gone
    ensures forall g :: g in handles && handles[g].phase != Gone && g != h && handles[g].cid == handles[h].cid ==>
              Sum(handles, Users(handles[h].cid)) > 1
  {
    forall g | g in handles && handles[g].phase != Gone && g != h && handles[g].cid == handles[h].cid
      ensures Sum(handles, Users(handles[h].cid)) > 1
    {
      SumTwo(handles, Users(handles[h].cid), g, h);
    }
  }

  lemma StateIsThere(registry: map<string, nat>, states: map<nat, State>, next: nat, handles: map<nat, Handle>, h: nat)
    requires Inv(registry, states, next, handles) && h in handles && handles[h].phase != Gone
    ensures handles[h].state in states && (handles[h].phase == Holding ==> handles[h].kind != Working)
  {
    assert handles[h].cid in registry;
  }

  class SearchStates {
    var registry: map<string, nat>
    var states: map<nat, State>
    var next: nat
    ghost var handles: map<nat, Handle>

    ghost predicate Valid()
      reads this
    {
      Inv(registry, states, next, handles)
    }

    constructor ()
      ensures Valid() && handles == map[]
    {
      registry, states, next, handles := map[], map[], 0, map[];
    }

    /** Look the community's state up, making it if need be, and count one more user. */
    method Enter(cid: string, kind: Kind, ghost h: nat) returns (state: nat)
      requires Valid() && h !in handles
      modifies this
      ensures Valid() && handles == old(handles)[h := Handle(cid, state, kind, Waiting)]
      ensures cid in registry && registry[cid] == state
      ensures cid in old(registry) ==> state == old(registry)[cid]
      ensures cid !in old(registry) ==> forall g :: g in old(handles) ==> old(handles)[g].state != state
    {
      if cid in registry {
        EnterKeeps(registry, states, next, handles, cid, kind, h);
        state := registry[cid];
        hide Inv;
        states := states[state := states[state].(refs := states[state].refs + 1)];
      } else {
        EnterNewKeeps(registry, states, next, handles, cid, kind, h);
        hide Inv;
        state := next;
        registry, states, next := registry[cid := state], states[state := State(1, 0)], next + 1;
      }
      handles := handles[h := Handle(cid, state, kind, Waiting)];
    }

    /** The semaphore lets a waiter in when what it asks for is left. */
    method Acquire(state: nat, kind: Kind, ghost h: nat) returns (ok: bool)
      requires Valid() && kind != Working
      requires h in handles && handles[h].phase == Waiting && handles[h].state == state && handles[h].kind == kind
      modifies this
      ensures Valid()
      ensures ok == (Sum(old(handles), Held(state)) + Weight(kind) <= WRITER_WEIGHT)
      ensures handles == if ok then old(handles)[h := old(handles)[h].(phase := Holding)] else old(handles)
    {
      hide Registered, Semaphores, Shared, Inv, Sum;
      StateIsThere(registry, states, next, handles, h);
      HoldingKeeps(registry, states, next, handles, h, Holding, states[state].held + Weight(kind));
      ok := states[state].held + Weight(kind) <= WRITER_WEIGHT;
      if ok {
        states := states[state := states[state].(held := states[state].held + Weight(kind))];
        handles := handles[h := handles[h].(phase := Holding)];
      }
    }

    /** Give the semaphore back; the state is still in use until the handle leaves. */
    method Unlock(state: nat, kind: Kind, ghost h: nat)
      requires Valid()
      requires h in handles && handles[h].phase == Holding && handles[h].state == state && handles[h].kind == kind
      modifies this
      ensures Valid() && handles == old(handles)[h := old(handles)[h].(phase := Unlocked)]
    {
      hide Registered, Semaphores, Shared, Inv, Sum;
      StateIsThere(registry, states, next, handles, h);
      HoldingKeeps(registry, states, next, handles, h, Unlocked,
                   if states[state].held >= Weight(kind) then states[state].held - Weight(kind) else states[state].held);
      states := states[state := states[state].(held := states[state].held - Weight(kind))];
      handles := handles[h := handles[h].(phase := Unlocked)];
    }

    /** One user fewer; the last one takes the community out of the registry. */
    method Leave(cid: string, state: nat, ghost h: nat)
      requires Valid() && h in handles && handles[h].cid == cid && handles[h].state == state
      requires handles[h].phase == Waiting || handles[h].phase == Unlocked
      modifies this
      ensures Valid() && handles == old(handles)[h := old(handles)[h].(phase := Gone)]
    {
      LeaveKeeps(registry, states, next, handles, h);
      hide Inv, Registered, Semaphores, Shared;
      states := states[state := states[state].(refs := states[state].refs - 1)];
      if states[state].refs == 0 {
        registry := registry - {cid};
      }
      handles := handles[h := handles[h].(phase := Gone)];
    }
  }
}

/** A query over every source: the copies of each finding are gathered, baselines are advanced
  where everybody agrees, and each finding is resolved once.

  Whether a link's baselines can be written depends on a lock that is only tried; `locks` says
  for which it was free.
 */
module CopyQueries {
  import opened CopyBases
  import opened CopyReconciliation
  import opened Ordering
  import opened CopyIdentity

  datatype Reply = Reply(compared: seq<KnowledgeEntry>, hits: seq<Hit>)

  /** What one query sees: candidate identities, local copies, and each link's answer, if it came. */
  datatype Observation = Observation(ids: seq<string>, locals: map<string, Hit>, connections: seq<Connection>,
                                     replies: seq<Option<Reply>>)

  ghost predicate WellFormed(obs: Observation) {
    |obs.connections| == |obs.replies| && forall i, j :: 0 <= i < j < |obs.ids| ==> obs.ids[i] != obs.ids[j]
  }

  function CheckedHit(e: KnowledgeEntry, conn: Connection): Hit {
    Hit(conn.alias, conn.service, conn.community, e.id, e.fingerprint, "", "", "", e.sequence, true, [], [], NoReason, false, [])
  }

  /** A matching hit counts before a compared fingerprint, and the last of either before the rest. */
  function StateFrom(compared: seq<KnowledgeEntry>, conn: Connection, id: string): Option<Hit> {
    if compared == [] then None
    else if compared[|compared| - 1].id == id then Some(CheckedHit(compared[|compared| - 1], conn))
    else StateFrom(compared[..|compared| - 1], conn, id)
  }

  function State(compared: seq<KnowledgeEntry>, hits: seq<Hit>, conn: Connection, id: string): Option<Hit>
    decreases |hits|
  {
    if hits == [] then StateFrom(compared, conn, id)
    else if ValidIdentity(hits[|hits| - 1].finding, hits[|hits| - 1].fingerprint) && hits[|hits| - 1].finding == id then
      Some(hits[|hits| - 1])
    else State(compared, hits[..|hits| - 1], conn, id)
  }

  function StateAt(obs: Observation, i: nat, id: string): Option<Hit>
    requires i < |obs.connections| == |obs.replies|
  {
    match obs.replies[i]
    case None => None
    case Some(r) => State(r.compared, r.hits, obs.connections[i], id)
  }

  function LocalCopies(obs: Observation, id: string): seq<Copy> {
    if id in obs.locals then [Copy(obs.locals[id], Base("", 0))] else []
  }

  /** The copies of one finding after the first `n` links. */
  function GroupUpTo(obs: Observation, bases: Bases, id: string, n: nat): seq<Copy>
    requires n <= |obs.connections| == |obs.replies|
  {
    if n == 0 then LocalCopies(obs, id)
    else
      var before, h := GroupUpTo(obs, bases, id, n - 1), StateAt(obs, n - 1, id);
      if h.Some? then before + [Copy(h.value, BaseOf(bases, obs.connections[n - 1], id))] else before
  }

  function GroupOf(obs: Observation, bases: Bases, id: string): seq<Copy>
    requires |obs.connections| == |obs.replies|
  {
    GroupUpTo(obs, bases, id, |obs.connections|)
  }

  predicate AgreesAt(obs: Observation, bases: Bases, i: nat, id: string)
    requires i < |obs.connections| == |obs.replies|
  {
    id in obs.locals && StateAt(obs, i, id).Some?
    && var h, b := StateAt(obs, i, id).value, BaseOf(bases, obs.connections[i], id);
       obs.locals[id].fingerprint == h.fingerprint && (b.fingerprint != h.fingerprint || b.sequence < h.sequence)
  }

  function EntryAt(obs: Observation, i: nat, id: string): KnowledgeEntry
    requires i < |obs.connections| == |obs.replies| && StateAt(obs, i, id).Some?
  {
    KnowledgeEntry(id, StateAt(obs, i, id).value.fingerprint, StateAt(obs, i, id).value.sequence)
  }

  predicate AllSame(copies: seq<Copy>, fingerprint: string) {
    forall k :: 0 <= k < |copies| ==> copies[k].hit.fingerprint == fingerprint
  }

  function Agreements(obs: Observation, bases: Bases, i: nat, n: nat): seq<KnowledgeEntry>
    requires i < |obs.connections| == |obs.replies| && n <= |obs.ids|
  {
    if n == 0 then []
    else
      var before := Agreements(obs, bases, i, n - 1);
      if AgreesAt(obs, bases, i, obs.ids[n - 1]) then before + [EntryAt(obs, i, obs.ids[n - 1])] else before
  }

  /** Of a link's agreements, those about findings that every copy agrees on. */
  function Settled(obs: Observation, bases: Bases, entries: seq<KnowledgeEntry>): seq<KnowledgeEntry>
    requires |obs.connections| == |obs.replies|
  {
    if entries == [] then []
    else
      var before, e := Settled(obs, bases, entries[..|entries| - 1]), entries[|entries| - 1];
      if AllSame(GroupOf(obs, bases, e.id), e.fingerprint) then before + [e] else before
  }

  function SettledAt(obs: Observation, bases: Bases, i: nat): seq<KnowledgeEntry>
    requires i < |obs.connections| == |obs.replies|
  {
    Settled(obs, bases, Agreements(obs, bases, i, |obs.ids|))
  }

  /** The cache after the first `n` links have stored what settled, by what was read at the start. */
  function StoredUpTo(obs: Observation, bases: Bases, locks: seq<bool>, n: nat): Bases
    requires n <= |obs.connections| == |obs.replies| == |locks|
  {
    if n == 0 then bases
    else
      var before := StoredUpTo(obs, bases, locks, n - 1);
      if locks[n - 1] then StoreAll(before, obs.connections[n - 1], SettledAt(obs, bases, n - 1)) else before
  }

  function StoredBy(obs: Observation, bases: Bases, locks: seq<bool>): Bases
    requires |obs.connections| == |obs.replies| == |locks|
  {
    StoredUpTo(obs, bases, locks, |obs.connections|)
  }

  // ---------- As the source runs it ----------

  method StatesOf(reply: Reply, conn: Connection) returns (states: map<string, Hit>)
    ensures forall id :: id in states <==> State(reply.compared, reply.hits, conn, id).Some?
    ensures forall id :: id in states ==> states[id] == State(reply.compared, reply.hits, conn, id).value
  {
    states := map[];
    assert reply.compared[..0] == [] && reply.hits[..0] == [];
    for i := 0 to |reply.compared|
      invariant forall id :: id in states <==> StateFrom(reply.compared[..i], conn, id).Some?
      invariant forall id :: id in states ==> states[id] == StateFrom(reply.compared[..i], conn, id).value
    {
      assert reply.compared[..i + 1][..i] == reply.compared[..i];
      states := states[reply.compared[i].id := CheckedHit(reply.compared[i], conn)];
    }
    assert reply.compared[..|reply.compared|] == reply.compared;
    for i := 0 to |reply.hits|
      invariant forall id :: id in states <==> State(reply.compared, reply.hits[..i], conn, id).Some?
      invariant forall id :: id in states ==> states[id] == State(reply.compared, reply.hits[..i], conn, id).value
    {
      assert reply.hits[..i + 1][..i] == reply.hits[..i];
      if ValidIdentity(reply.hits[i].finding, reply.hits[i].fingerprint) {
        states := states[reply.hits[i].finding := reply.hits[i]];
      }
    }
    assert reply.hits[..|reply.hits|] == reply.hits;
  }

  ghost predicate GroupsAre(obs: Observation, bases: Bases, groups: map<string, seq<Copy>>, n: nat)
    requires n <= |obs.connections| == |obs.replies|
  {
    forall k :: 0 <= k < |obs.ids| ==> obs.ids[k] in groups && groups[obs.ids[k]] == GroupUpTo(obs, bases, obs.ids[k], n)
  }

  lemma GroupNext(obs: Observation, bases: Bases, id: string, i: nat)
    requires i < |obs.connections| == |obs.replies|
    ensures var before, h := GroupUpTo(obs, bases, id, i), StateAt(obs, i, id);
            GroupUpTo(obs, bases, id, i + 1) == if h.Some? then before + [Copy(h.value, BaseOf(bases, obs.connections[i], id))] else before
  {
  }

  method LinkStates(obs: Observation, i: nat) returns (states: map<string, Hit>)
    requires WellFormed(obs) && i < |obs.connections|
    ensures forall id :: id in states <==> StateAt(obs, i, id).Some?
    ensures forall id :: id in states ==> states[id] == StateAt(obs, i, id).value
  {
    states := map[];
    if obs.replies[i].Some? { states := StatesOf(obs.replies[i].value, obs.connections[i]); }
  }

  /** One link's copies join their groups, and its agreements are noted. */
  method GatherLink(obs: Observation, bases: Bases, was: map<string, seq<Copy>>, i: nat)
    returns (groups: map<string, seq<Copy>>, entries: seq<KnowledgeEntry>)
    requires WellFormed(obs) && i < |obs.connections| && GroupsAre(obs, bases, was, i)
    ensures GroupsAre(obs, bases, groups, i + 1) && entries == Agreements(obs, bases, i, |obs.ids|)
  {
    hide State, StateFrom, StateAt, GroupUpTo;
    groups, entries := was, [];
    var states := LinkStates(obs, i);
    var k := 0;
    while k < |obs.ids|
      invariant 0 <= k <= |obs.ids| && entries == Agreements(obs, bases, i, k)
      invariant forall j :: 0 <= j < k ==> obs.ids[j] in groups && groups[obs.ids[j]] == GroupUpTo(obs, bases, obs.ids[j], i + 1)
      invariant forall j :: k <= j < |obs.ids| ==> obs.ids[j] in groups && groups[obs.ids[j]] == GroupUpTo(obs, bases, obs.ids[j], i)
    {
      var id := obs.ids[k];
      GroupNext(obs, bases, id, i);
      if id in states {
        var h, base := states[id], BaseOf(bases, obs.connections[i], id);
        groups := groups[id := groups[id] + [Copy(h, base)]];
        if id in obs.locals && obs.locals[id].fingerprint == h.fingerprint
           && (base.fingerprint != h.fingerprint || base.sequence < h.sequence) {
          entries := entries + [KnowledgeEntry(id, h.fingerprint, h.sequence)];
        }
      }
      k := k + 1;
    }
  }

  method SettleLink(obs: Observation, ghost bases: Bases, groups: map<string, seq<Copy>>, entries: seq<KnowledgeEntry>)
    returns (settled: seq<KnowledgeEntry>)
    requires WellFormed(obs) && GroupsAre(obs, bases, groups, |obs.connections|)
    requires forall k :: 0 <= k < |entries| ==> entries[k].id in obs.ids
    ensures settled == Settled(obs, bases, entries)
  {
    settled := [];
    assert entries[..0] == [];
    for i := 0 to |entries|
      invariant settled == Settled(obs, bases, entries[..i])
    {
      var e := entries[i];
      assert entries[..i + 1][..i] == entries[..i];
      var k :| 0 <= k < |obs.ids| && obs.ids[k] == e.id;
      var copies, same := groups[e.id], true;
      for j := 0 to |copies|
        invariant same && AllSame(copies[..j], e.fingerprint)
      {
        if copies[j].hit.fingerprint != e.fingerprint {
          same := false;
          break;
        }
      }
      if same { settled := settled + [e]; }
    }
    assert entries[..|entries|] == entries;
  }

  lemma {:induction false} AgreementIds(obs: Observation, bases: Bases, i: nat, n: nat)
    requires i < |obs.connections| == |obs.replies| && n <= |obs.ids|
    ensures forall k :: 0 <= k < |Agreements(obs, bases, i, n)| ==>
              var e := Agreements(obs, bases, i, n)[k];
              e.id in obs.ids && AgreesAt(obs, bases, i, e.id) && e == EntryAt(obs, i, e.id)
  {
    if n > 0 { AgreementIds(obs, bases, i, n - 1); }
  }

  method ReconcileSources(obs: Observation, candidates: seq<Hit>, cache: CopyBaseCache, locks: seq<bool>)
    returns (ok: bool, results: seq<Hit>)
    requires WellFormed(obs) && |locks| == |obs.connections| && AllAskedFor(obs, candidates)
    modifies cache
    ensures ok ==> cache.rows == StoredBy(obs, old(cache.rows), locks) && Answers(obs, old(cache.rows), candidates, results)
  {
    var bases := cache.rows;
    var groups: map<string, seq<Copy>> := map[];
    for k := 0 to |obs.ids|
      invariant forall j :: 0 <= j < k ==> obs.ids[j] in groups && groups[obs.ids[j]] == LocalCopies(obs, obs.ids[j])
    {
      groups := groups[obs.ids[k] := LocalCopies(obs, obs.ids[k])];
    }
    var pending: seq<seq<KnowledgeEntry>> := [];
    var live: map<string, Reply> := map[];
    hide Agreements, GroupUpTo, Settled, StoreAll, LocalCopies, Answers;
    assert GroupsAre(obs, bases, groups, 0) by { FirstGroups(obs, bases, groups); }
    for i := 0 to |obs.connections|
      invariant GroupsAre(obs, bases, groups, i) && |pending| == i && cache.rows == bases
      invariant forall j :: 0 <= j < i ==> pending[j] == Agreements(obs, bases, j, |obs.ids|)
      invariant LiveIs(obs, live, i)
    {
      if obs.replies[i].Some? { live := live[obs.connections[i].alias := obs.replies[i].value]; }
      var entries;
      groups, entries := GatherLink(obs, bases, groups, i);
      pending := pending + [entries];
    }
    ok := Remember(obs, cache, locks, bases, groups, pending);
    if !ok { return false, []; }
    results := AnswerAll(obs, bases, groups, live, candidates);
  }

  // ---------- The answer, candidate by candidate ----------

  ghost predicate AllAskedFor(obs: Observation, candidates: seq<Hit>) {
    forall k :: 0 <= k < |candidates| && ValidIdentity(candidates[k].finding, candidates[k].fingerprint) ==> candidates[k].finding in obs.ids
  }

  /** What the last of the first `n` links with this name answered. */
  function LiveAt(obs: Observation, alias: string, n: nat): Option<Reply>
    requires n <= |obs.connections| == |obs.replies|
  {
    if n == 0 then None
    else if obs.connections[n - 1].alias == alias && obs.replies[n - 1].Some? then obs.replies[n - 1]
    else LiveAt(obs, alias, n - 1)
  }

  ghost predicate LiveIs(obs: Observation, live: map<string, Reply>, n: nat)
    requires n <= |obs.connections| == |obs.replies|
  {
    forall alias :: LiveAt(obs, alias, n) == if alias in live then Some(live[alias]) else None
  }

  /** The first hit in an answer for the same finding and text. */
  function SameHit(hits: seq<Hit>, c: Hit): seq<Hit> {
    if hits == [] then []
    else if hits[0].finding == c.finding && hits[0].fingerprint == c.fingerprint then [hits[0]]
    else SameHit(hits[1..], c)
  }

  /** An identified candidate with copies shows their resolution, if anything of it matched. Of any
      other, a local one stays, and a remote one is what its own source still answers. */
  ghost predicate AnswersOne(obs: Observation, bases: Bases, c: Hit, shown: seq<Hit>)
    requires |obs.connections| == |obs.replies|
  {
    var copies := GroupOf(obs, bases, c.finding);
    if ValidIdentity(c.finding, c.fingerprint) && copies != [] then
      |shown| <= 1 && IsResolution(c.finding, Sort(copies, CopyBefore()), if shown == [] then None else Some(shown[0]))
    else if IsLocal(c) then shown == [c]
    else
      match LiveAt(obs, c.source, |obs.connections|)
      case None => shown == []
      case Some(reply) => shown == SameHit(reply.hits, c)
  }

  /** The results are what the candidates come to, in the candidates' order. */
  ghost predicate Answers(obs: Observation, bases: Bases, candidates: seq<Hit>, results: seq<Hit>)
    requires |obs.connections| == |obs.replies|
    decreases |candidates|
  {
    if candidates == [] then results == []
    else exists k :: 0 <= k <= |results| && Answers(obs, bases, candidates[..|candidates| - 1], results[..k])
                     && AnswersOne(obs, bases, candidates[|candidates| - 1], results[k..])
  }

  method AnswerAll(obs: Observation, ghost bases: Bases, groups: map<string, seq<Copy>>, live: map<string, Reply>, candidates: seq<Hit>)
    returns (results: seq<Hit>)
    requires WellFormed(obs) && GroupsAre(obs, bases, groups, |obs.connections|) && LiveIs(obs, live, |obs.connections|)
    requires AllAskedFor(obs, candidates)
    ensures Answers(obs, bases, candidates, results)
  {
    hide Answers, AnswersOne, GroupsAre, LiveIs, ValidIdentity;
    results := [];
    NoAnswers(obs, bases, candidates);
    for i := 0 to |candidates|
      invariant Answers(obs, bases, candidates[..i], results)
    {
      var shown := AnswerOne(obs, bases, groups, live, candidates[i]);
      AnswersNext(obs, bases, candidates, i, results, shown);
      results := results + shown;
    }
    assert candidates[..|candidates|] == candidates;
  }

  method AnswerOne(obs: Observation, ghost bases: Bases, groups: map<string, seq<Copy>>, live: map<string, Reply>, c: Hit)
    returns (shown: seq<Hit>)
    requires WellFormed(obs) && GroupsAre(obs, bases, groups, |obs.connections|) && LiveIs(obs, live, |obs.connections|)
    requires ValidIdentity(c.finding, c.fingerprint) ==> c.finding in obs.ids
    ensures AnswersOne(obs, bases, c, shown)
  {
    hide GroupUpTo, IsResolution, Sort, CopyBefore, ValidIdentity, LiveAt;
    shown := [];
    if ValidIdentity(c.finding, c.fingerprint) && groups[c.finding] != [] {
      var hit := ResolveGroup(c.finding, groups[c.finding]);
      if hit.Some? { shown := [hit.value]; }
      return;
    }
    if IsLocal(c) { return [c]; }
    if c.source in live { shown := FindSame(live[c.source].hits, c); }
  }

  method FindSame(hits: seq<Hit>, c: Hit) returns (found: seq<Hit>)
    ensures found == SameHit(hits, c)
  {
    var k := 0;
    while k < |hits|
      invariant 0 <= k <= |hits| && SameHit(hits, c) == SameHit(hits[k..], c)
    {
      if hits[k].finding == c.finding && hits[k].fingerprint == c.fingerprint { return [hits[k]]; }
      assert hits[k..][1..] == hits[k + 1..];
      k := k + 1;
    }
    found := [];
  }

  lemma NoAnswers(obs: Observation, bases: Bases, candidates: seq<Hit>)
    requires |obs.connections| == |obs.replies|
    ensures Answers(obs, bases, candidates[..0], [])
  {
  }

  lemma AnswersNext(obs: Observation, bases: Bases, candidates: seq<Hit>, i: nat, results: seq<Hit>, shown: seq<Hit>)
    requires i < |candidates| && |obs.connections| == |obs.replies| && Answers(obs, bases, candidates[..i], results)
    requires AnswersOne(obs, bases, candidates[i], shown)
    ensures Answers(obs, bases, candidates[..i + 1], results + shown)
  {
    hide AnswersOne;
    var all, k := results + shown, |results|;
    assert candidates[..i + 1][..i] == candidates[..i] && all[..k] == results && all[k..] == shown;
  }

  lemma FirstGroups(obs: Observation, bases: Bases, groups: map<string, seq<Copy>>)
    requires |obs.connections| == |obs.replies|
    requires forall j :: 0 <= j < |obs.ids| ==> obs.ids[j] in groups && groups[obs.ids[j]] == LocalCopies(obs, obs.ids[j])
    ensures GroupsAre(obs, bases, groups, 0)
  {
  }

  /** Only once every group is complete are baselines advanced. */
  method Remember(obs: Observation, cache: CopyBaseCache, locks: seq<bool>, bases: Bases, groups: map<string, seq<Copy>>,
                  pending: seq<seq<KnowledgeEntry>>)
    returns (ok: bool)
    requires WellFormed(obs) && |locks| == |obs.connections| == |pending| && cache.rows == bases
    requires GroupsAre(obs, bases, groups, |obs.connections|)
    requires forall j :: 0 <= j < |pending| ==> pending[j] == Agreements(obs, bases, j, |obs.ids|)
    modifies cache
    ensures ok ==> cache.rows == StoredBy(obs, bases, locks)
  {
    hide Agreements, GroupUpTo, Settled, StoreAll;
    for i := 0 to |obs.connections|
      invariant cache.rows == StoredUpTo(obs, bases, locks, i)
    {
      AgreementIds(obs, bases, i, |obs.ids|);
      var settled := SettleLink(obs, bases, groups, pending[i]);
      NothingStored(cache.rows, obs.connections[i]);
      if settled != [] && locks[i] {
        var stored := cache.StoreCopyBases(obs.connections[i], settled, (e: KnowledgeEntry) => ValidIdentity(e.id, e.fingerprint));
        if !stored { return false; }
      }
    }
    ok := true;
  }

  lemma NothingStored(bases: Bases, conn: Connection)
    ensures StoreAll(bases, conn, []) == bases
  {
  }

  // ---------- Asking again changes nothing ----------

  /** Two groups of the same copies, whatever their baselines. */
  ghost predicate SameHits(a: seq<Copy>, b: seq<Copy>) {
    |a| == |b| && forall k :: 0 <= k < |a| ==> a[k].hit == b[k].hit
  }

  lemma {:induction false} InsertSameHits(x: Copy, y: Copy, a: seq<Copy>, b: seq<Copy>)
    requires x.hit == y.hit && SameHits(a, b)
    ensures SameHits(Insert(x, a, CopyBefore()), Insert(y, b, CopyBefore()))
    decreases |a|
  {
    if a != [] && CopyBefore()(a[0], x) { InsertSameHits(x, y, a[1..], b[1..]); }
  }

  lemma {:induction false} SortSameHits(a: seq<Copy>, b: seq<Copy>)
    requires SameHits(a, b)
    ensures SameHits(Sort(a, CopyBefore()), Sort(b, CopyBefore()))
    decreases |a|
  {
    if a != [] {
      SortSameHits(a[1..], b[1..]);
      InsertSameHits(a[0], b[0], Sort(a[1..], CopyBefore()), Sort(b[1..], CopyBefore()));
    }
  }

  lemma {:induction false} SameHitsWithHash(a: seq<Copy>, b: seq<Copy>, hash: string)
    requires SameHits(a, b)
    ensures WithHash(a, hash) == WithHash(b, hash) && Others(a, hash) == Others(b, hash)
    decreases |a|
  {
    if a != [] { SameHitsWithHash(a[..|a| - 1], b[..|b| - 1], hash); }
  }

  lemma SameHitsHashes(a: seq<Copy>, b: seq<Copy>)
    requires SameHits(a, b)
    ensures Hashes(a) == Hashes(b)
  {
    forall h | h in Hashes(a) ensures h in Hashes(b) {
      var c :| c in a && c.hit.fingerprint == h;
      var k :| 0 <= k < |a| && a[k] == c;
      assert b[k] in b;
    }
    forall h | h in Hashes(b) ensures h in Hashes(a) {
      var c :| c in b && c.hit.fingerprint == h;
      var k :| 0 <= k < |b| && b[k] == c;
      assert a[k] in a;
    }
  }

  /** With one text among the copies, baselines do not matter. */
  lemma AgreedResolution(id: string, a: seq<Copy>, b: seq<Copy>, fingerprint: string, r: Option<Hit>)
    requires SameHits(a, b) && Hashes(a) == {fingerprint} && fingerprint != "" && IsResolution(id, a, r)
    ensures IsResolution(id, b, r)
  {
    SameHitsHashes(a, b);
    SameHitsWithHash(a, b, fingerprint);
    hide WithHash, Others, Hashes, DecideLocal, LocalHit;
    assert Decide(a) == Decide(b) == Decision(fingerprint, NoReason);
  }

  lemma {:induction false} GroupSameHits(obs: Observation, was: Bases, now: Bases, id: string, n: nat)
    requires n <= |obs.connections| == |obs.replies|
    ensures SameHits(GroupUpTo(obs, was, id, n), GroupUpTo(obs, now, id, n))
  {
    if n > 0 { GroupSameHits(obs, was, now, id, n - 1); }
  }

  lemma {:induction false} GroupSameBases(obs: Observation, was: Bases, now: Bases, id: string, n: nat)
    requires n <= |obs.connections| == |obs.replies|
    requires forall i :: 0 <= i < n ==> BaseOf(now, obs.connections[i], id) == BaseOf(was, obs.connections[i], id)
    ensures GroupUpTo(obs, was, id, n) == GroupUpTo(obs, now, id, n)
  {
    if n > 0 { GroupSameBases(obs, was, now, id, n - 1); }
  }

  lemma {:induction false} SettledIds(obs: Observation, bases: Bases, entries: seq<KnowledgeEntry>)
    requires |obs.connections| == |obs.replies|
    ensures forall k :: 0 <= k < |Settled(obs, bases, entries)| ==>
              var e := Settled(obs, bases, entries)[k]; e in entries && AllSame(GroupOf(obs, bases, e.id), e.fingerprint)
    ensures forall e :: e in entries && AllSame(GroupOf(obs, bases, e.id), e.fingerprint) ==> e in Settled(obs, bases, entries)
    decreases |entries|
  {
    hide GroupUpTo;
    if entries != [] {
      var n := |entries| - 1;
      SettledIds(obs, bases, entries[..n]);
      assert entries == entries[..n] + [entries[n]];
    }
  }

  /** A finding on which the copies differ keeps every baseline it had. */
  lemma {:induction false} DisputedKeeps(obs: Observation, bases: Bases, locks: seq<bool>, n: nat, conn: Connection, id: string)
    requires n <= |obs.connections| == |obs.replies| == |locks|
    requires forall f :: !AllSame(GroupOf(obs, bases, id), f)
    ensures BaseOf(StoredUpTo(obs, bases, locks, n), conn, id) == BaseOf(bases, conn, id)
  {
    hide GroupUpTo, Settled, Agreements, StoreAll;
    if n > 0 {
      DisputedKeeps(obs, bases, locks, n - 1, conn, id);
      var entries := SettledAt(obs, bases, n - 1);
      SettledIds(obs, bases, Agreements(obs, bases, n - 1, |obs.ids|));
      forall i | 0 <= i < |entries| ensures KeyFor(obs.connections[n - 1], entries[i].id) != KeyFor(conn, id) {
        assert AllSame(GroupOf(obs, bases, entries[i].id), entries[i].fingerprint);
      }
      StoredElsewhere(StoredUpTo(obs, bases, locks, n - 1), obs.connections[n - 1], entries, KeyFor(conn, id));
    }
  }

  lemma AgreedHashes(copies: seq<Copy>, fingerprint: string)
    requires AllSame(copies, fingerprint) && copies != []
    ensures Hashes(Sort(copies, CopyBefore())) == {fingerprint}
  {
    CopyBeforeIsStrict();
    SortIs(copies, CopyBefore());
    SameMembers(Sort(copies, CopyBefore()), copies);
    hide Sort;
    assert copies[0] in copies;
    forall c | c in copies ensures c.hit.fingerprint == fingerprint {
      var k :| 0 <= k < |copies| && copies[k] == c;
    }
  }

  /** A query asked again of the same observations, after its baselines were written by whichever
      links could, resolves every finding as before. */
  lemma RepeatIsStable(obs: Observation, bases: Bases, locks: seq<bool>, id: string, r: Option<Hit>)
    requires |obs.connections| == |obs.replies| == |locks|
    requires forall k :: 0 <= k < |GroupOf(obs, bases, id)| ==> GroupOf(obs, bases, id)[k].hit.fingerprint != ""
    requires IsResolution(id, Sort(GroupOf(obs, bases, id), CopyBefore()), r)
    ensures IsResolution(id, Sort(GroupOf(obs, StoredBy(obs, bases, locks), id), CopyBefore()), r)
  {
    var n, now := |obs.connections|, StoredBy(obs, bases, locks);
    var group := GroupOf(obs, bases, id);
    hide IsResolution, Sort, GroupUpTo, StoredUpTo, CopyBefore;
    if f :| AllSame(group, f) && group != [] {
      GroupSameHits(obs, bases, now, id, n);
      SortSameHits(group, GroupOf(obs, now, id));
      AgreedHashes(group, f);
      assert group[0].hit.fingerprint == f;
      AgreedResolution(id, Sort(group, CopyBefore()), Sort(GroupOf(obs, now, id), CopyBefore()), f, r);
    } else if group == [] {
      GroupSameHits(obs, bases, now, id, n);
      assert GroupOf(obs, now, id) == [];
    } else {
      forall i | 0 <= i < n ensures BaseOf(now, obs.connections[i], id) == BaseOf(bases, obs.connections[i], id) {
        DisputedKeeps(obs, bases, locks, n, obs.connections[i], id);
      }
      GroupSameBases(obs, bases, now, id, n);
    }
  }

  /** So the whole answer stays as it is. */
  lemma {:induction false} RepeatAnswers(obs: Observation, bases: Bases, locks: seq<bool>, candidates: seq<Hit>, results: seq<Hit>)
    requires |obs.connections| == |obs.replies| == |locks| && Answers(obs, bases, candidates, results)
    requires forall c, k :: c in candidates && 0 <= k < |GroupOf(obs, bases, c.finding)| ==>
               GroupOf(obs, bases, c.finding)[k].hit.fingerprint != ""
    ensures Answers(obs, StoredBy(obs, bases, locks), candidates, results)
    decreases |candidates|
  {
    hide AnswersOne, StoredUpTo, GroupUpTo;
    if candidates != [] {
      var n := |candidates| - 1;
      var c := candidates[n];
      var k :| 0 <= k <= |results| && Answers(obs, bases, candidates[..n], results[..k]) && AnswersOne(obs, bases, c, results[k..]);
      RepeatAnswers(obs, bases, locks, candidates[..n], results[..k]);
      RepeatAnswersOne(obs, bases, locks, c, results[k..]);
    }
  }

  lemma RepeatAnswersOne(obs: Observation, bases: Bases, locks: seq<bool>, c: Hit, shown: seq<Hit>)
    requires |obs.connections| == |obs.replies| == |locks| && AnswersOne(obs, bases, c, shown)
    requires forall k :: 0 <= k < |GroupOf(obs, bases, c.finding)| ==> GroupOf(obs, bases, c.finding)[k].hit.fingerprint != ""
    ensures AnswersOne(obs, StoredBy(obs, bases, locks), c, shown)
  {
    hide IsResolution, Sort, GroupUpTo, StoredUpTo, CopyBefore, ValidIdentity, LiveAt;
    GroupSameHits(obs, bases, StoredBy(obs, bases, locks), c.finding, |obs.connections|);
    if ValidIdentity(c.finding, c.fingerprint) && GroupOf(obs, bases, c.finding) != [] {
      RepeatIsStable(obs, bases, locks, c.finding, if shown == [] then None else Some(shown[0]));
    }
  }

  /** Over a whole query, no baseline in the current format falls back. */
  lemma {:induction false} BaselinesOnlyRise(obs: Observation, bases: Bases, locks: seq<bool>, n: nat)
    requires n <= |obs.connections| == |obs.replies| == |locks|
    ensures OnlyRises(bases, StoredUpTo(obs, bases, locks, n))
  {
    if n > 0 {
      BaselinesOnlyRise(obs, bases, locks, n - 1);
      StoredOnlyRises(StoredUpTo(obs, bases, locks, n - 1), obs.connections[n - 1], SettledAt(obs, bases, n - 1));
      hide SettledAt, StoreAll;
    }
  }
}

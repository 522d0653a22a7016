/** Shared baselines: per link and finding, the last text both sides were seen to have.

  The cache keeps one row for each service, community and finding. It is read in batches and
  written row by row under a guard of its own, so a late answer cannot set it back.
 */
module CopyBases {

  const KNOWLEDGE_FORMAT := "re-discipline-knowledge-2"
  const BATCH := 256

  /** An empty fingerprint is no baseline. */
  datatype Base = Base(fingerprint: string, sequence: int)

  datatype BaseKey = BaseKey(service: string, community: string, id: string)

  datatype BaseRow = BaseRow(fingerprint: string, sequence: int, format: string)

  type Bases = map<BaseKey, BaseRow>

  datatype KnowledgeEntry = KnowledgeEntry(id: string, fingerprint: string, sequence: int)

  datatype Connection = Connection(alias: string, service: string, community: string)

  function KeyFor(conn: Connection, id: string): BaseKey { BaseKey(conn.service, conn.community, id) }

  /** What a query reads: rows of another format do not count. */
  function BaseOf(bases: Bases, conn: Connection, id: string): Base {
    var k := KeyFor(conn, id);
    if k in bases && bases[k].format == KNOWLEDGE_FORMAT then Base(bases[k].fingerprint, bases[k].sequence) else Base("", 0)
  }

  predicate UpToDate(bases: Bases, k: BaseKey, sequence: int) {
    k in bases && bases[k].format == KNOWLEDGE_FORMAT && bases[k].sequence >= sequence
  }

  function StoreOne(bases: Bases, conn: Connection, e: KnowledgeEntry): Bases {
    var k := KeyFor(conn, e.id);
    if UpToDate(bases, k, e.sequence) then bases else bases[k := BaseRow(e.fingerprint, e.sequence, KNOWLEDGE_FORMAT)]
  }

  function StoreAll(bases: Bases, conn: Connection, entries: seq<KnowledgeEntry>): Bases
    decreases |entries|
  {
    if entries == [] then bases
    else StoreOne(StoreAll(bases, conn, entries[..|entries| - 1]), conn, entries[|entries| - 1])
  }

  ghost predicate AllValid(entries: seq<KnowledgeEntry>, valid: KnowledgeEntry -> bool) {
    forall i :: 0 <= i < |entries| ==> valid(entries[i]) && entries[i].sequence >= 0
  }

  /** A later state of the cache: within the current format a sequence never falls, and equal
      sequences keep their text. */
  ghost predicate OnlyRises(was: Bases, now: Bases) {
    forall k :: k in was ==>
      k in now
      && (was[k].format == KNOWLEDGE_FORMAT ==>
            now[k].format == KNOWLEDGE_FORMAT && (now[k].sequence > was[k].sequence || now[k] == was[k]))
  }

  lemma {:induction false} StoredOnlyRises(bases: Bases, conn: Connection, entries: seq<KnowledgeEntry>)
    ensures OnlyRises(bases, StoreAll(bases, conn, entries))
    decreases |entries|
  {
    if entries != [] { StoredOnlyRises(bases, conn, entries[..|entries| - 1]); }
  }

  /** Each entry leaves its key at its own sequence or later. */
  lemma {:induction false} StoredReaches(bases: Bases, conn: Connection, entries: seq<KnowledgeEntry>, i: nat)
    requires i < |entries|
    ensures UpToDate(StoreAll(bases, conn, entries), KeyFor(conn, entries[i].id), entries[i].sequence)
    decreases |entries|
  {
    if i < |entries| - 1 { StoredReaches(bases, conn, entries[..|entries| - 1], i); }
  }

  lemma {:induction false} StoredElsewhere(bases: Bases, conn: Connection, entries: seq<KnowledgeEntry>, k: BaseKey)
    requires forall i :: 0 <= i < |entries| ==> KeyFor(conn, entries[i].id) != k
    ensures var now := StoreAll(bases, conn, entries); (k in now <==> k in bases) && (k in bases ==> now[k] == bases[k])
    decreases |entries|
  {
    if entries != [] { StoredElsewhere(bases, conn, entries[..|entries| - 1], k); }
  }

  /** Storing what is up to date stores nothing, so storing twice is storing once. */
  lemma {:induction false} NothingToStore(bases: Bases, conn: Connection, entries: seq<KnowledgeEntry>)
    requires forall i :: 0 <= i < |entries| ==> UpToDate(bases, KeyFor(conn, entries[i].id), entries[i].sequence)
    ensures StoreAll(bases, conn, entries) == bases
    decreases |entries|
  {
    if entries != [] { NothingToStore(bases, conn, entries[..|entries| - 1]); }
  }

  lemma StoringTwiceIsStoringOnce(bases: Bases, conn: Connection, entries: seq<KnowledgeEntry>)
    ensures StoreAll(StoreAll(bases, conn, entries), conn, entries) == StoreAll(bases, conn, entries)
  {
    forall i | 0 <= i < |entries|
      ensures UpToDate(StoreAll(bases, conn, entries), KeyFor(conn, entries[i].id), entries[i].sequence)
    {
      StoredReaches(bases, conn, entries, i);
    }
    NothingToStore(StoreAll(bases, conn, entries), conn, entries);
  }

  class CopyBaseCache {
    var rows: Bases

    constructor ()
      ensures rows == map[]
    {
      rows := map[];
    }

    /** All entries take effect, or, if one is invalid, none: the batches read ahead and skip what
        is known to be current, which changes nothing but the number of writes. */
    method StoreCopyBases(conn: Connection, entries: seq<KnowledgeEntry>, valid: KnowledgeEntry -> bool) returns (ok: bool)
      modifies this
      ensures ok == AllValid(entries, valid)
      ensures rows == if ok then StoreAll(old(rows), conn, entries) else old(rows)
    {
      var table := rows;
      var start := 0;
      while start < |entries|
        invariant 0 <= start <= |entries| && table == StoreAll(rows, conn, entries[..start])
        invariant forall i :: 0 <= i < start ==> valid(entries[i]) && entries[i].sequence >= 0
        invariant rows == old(rows)
        decreases |entries| - start
      {
        var end := if start + BATCH < |entries| then start + BATCH else |entries|;
        var batchOk;
        batchOk, table := StoreBatch(rows, table, conn, entries, start, end, valid);
        if !batchOk { return false; }
        start := end;
      }
      assert entries[..start] == entries;
      rows := table;
      ok := true;
    }
  }

  method StoreBatch(ghost first: Bases, was: Bases, conn: Connection, entries: seq<KnowledgeEntry>, start: nat, end: nat,
                    valid: KnowledgeEntry -> bool)
    returns (ok: bool, table: Bases)
    requires start <= end <= |entries| && was == StoreAll(first, conn, entries[..start])
    ensures ok <==> forall i :: start <= i < end ==> valid(entries[i]) && entries[i].sequence >= 0
    ensures ok ==> table == StoreAll(first, conn, entries[..end])
  {
    table := was;
    ok := CheckBatch(entries, start, end, valid);
    if !ok { return; }
    var current := Current(was, conn, entries[start..end]);
    var i := start;
    hide OnlyRises, UpToDate, StoreOne, StoreAll;
    Unmoved(was);
    while i < end
      invariant start <= i <= end && table == StoreAll(first, conn, entries[..i]) && OnlyRises(was, table)
    {
      var e := entries[i];
      StoreNext(first, conn, entries, i);
      RisesOn(was, table, conn, e);
      if e.id in current && current[e.id].sequence >= e.sequence {
        StillUpToDate(was, KeyFor(conn, e.id), current[e.id].sequence, e.sequence);
        KnownIsCurrent(was, table, conn, e);
      } else {
        table := WriteRow(table, conn, e);
      }
      i := i + 1;
    }
  }

  method CheckBatch(entries: seq<KnowledgeEntry>, start: nat, end: nat, valid: KnowledgeEntry -> bool) returns (ok: bool)
    requires start <= end <= |entries|
    ensures ok <==> forall i :: start <= i < end ==> valid(entries[i]) && entries[i].sequence >= 0
  {
    for i := start to end
      invariant forall j :: start <= j < i ==> valid(entries[j]) && entries[j].sequence >= 0
    {
      if !valid(entries[i]) || entries[i].sequence < 0 { return false; }
    }
    ok := true;
  }

  /** The guarded upsert. */
  method WriteRow(table: Bases, conn: Connection, e: KnowledgeEntry) returns (after: Bases)
    ensures after == StoreOne(table, conn, e)
  {
    var k := KeyFor(conn, e.id);
    after := table;
    if k !in table || table[k].format != KNOWLEDGE_FORMAT || e.sequence > table[k].sequence {
      after := table[k := BaseRow(e.fingerprint, e.sequence, KNOWLEDGE_FORMAT)];
    }
  }

  lemma StoreNext(bases: Bases, conn: Connection, entries: seq<KnowledgeEntry>, i: nat)
    requires i < |entries|
    ensures StoreAll(bases, conn, entries[..i + 1]) == StoreOne(StoreAll(bases, conn, entries[..i]), conn, entries[i])
  {
    assert entries[..i + 1][..i] == entries[..i];
  }

  lemma Unmoved(rows: Bases)
    ensures OnlyRises(rows, rows)
  {
  }

  lemma RisesOn(was: Bases, table: Bases, conn: Connection, e: KnowledgeEntry)
    requires OnlyRises(was, table)
    ensures OnlyRises(was, StoreOne(table, conn, e))
  {
  }

  lemma StillUpToDate(rows: Bases, k: BaseKey, sequence: int, earlier: int)
    requires UpToDate(rows, k, sequence) && earlier <= sequence
    ensures UpToDate(rows, k, earlier)
  {
  }

  /** A row that was already as late stays so while the rest of its batch is written. */
  lemma KnownIsCurrent(was: Bases, table: Bases, conn: Connection, e: KnowledgeEntry)
    requires OnlyRises(was, table) && UpToDate(was, KeyFor(conn, e.id), e.sequence)
    ensures StoreOne(table, conn, e) == table
  {
  }

  /** The rows of a batch in the current format, as they are before any of it is written. */
  method Current(rows: Bases, conn: Connection, batch: seq<KnowledgeEntry>) returns (current: map<string, Base>)
    ensures forall id :: id in current ==> UpToDate(rows, KeyFor(conn, id), current[id].sequence)
  {
    current := map[];
    for i := 0 to |batch|
      invariant forall id :: id in current ==> UpToDate(rows, KeyFor(conn, id), current[id].sequence)
    {
      var k := KeyFor(conn, batch[i].id);
      if k in rows && rows[k].format == KNOWLEDGE_FORMAT {
        current := current[batch[i].id := Base(rows[k].fingerprint, rows[k].sequence)];
      }
    }
  }
}

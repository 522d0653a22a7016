/** A community's canonical documents: uploads, deletions, counters and receipts.

  The row lock makes each upload or deletion one step. `versions` and `deletedAt` are read
  by no operation: they record every text ever stored and when an id was last deleted, for
  the statements about what an index may still show.
 */
module KnowledgeLibrary {

  const MAX_ID: int := 0xffff_ffff_ffff_ffff_ffff_ffff_ffff_ffff

  /** A UUID, in its own order. */
  type Id = x: int | 0 <= x <= MAX_ID

  const MAX_UPLOAD_BYTES := 1536 * 1024
  const MAX_UPLOAD_DOCUMENTS := 50
  const MAX_DELETED := 500
  const SECOND := 1_000_000_000
  const OLDEST_UPLOAD := 24 * 3600 * SECOND
  const EARLIEST_UPLOAD := 5 * 60 * SECOND

  datatype Document = Document(path: string, markdown: string, fingerprint: string, generation: int)

  datatype Offered = Offered(id: Id, path: string, markdown: string, fingerprint: string)

  /** `text` is the body as received; equal texts are the same upload. */
  datatype Batch = Batch(key: Id, createdAt: int, documents: seq<Offered>, text: string)

  datatype Entry = Entry(id: Id, path: string, fingerprint: string, bytes: nat, sequence: int)

  datatype Receipt = Receipt(key: Id, items: seq<Entry>, updated: nat, same: nat, sequence: int)

  datatype Kept = Kept(text: string, receipt: Receipt)

  datatype Library = Library(docs: map<Id, Document>, sequence: int, reset: int, bytes: int, count: int,
                             receipts: map<Id, Kept>, versions: set<(Id, Document)>, deletedAt: map<Id, int>)

  datatype Capacity = Capacity(bytes: int, count: int)

  datatype Refusal = TooLarge | Stale | Duplicate | Invalid | KeyReused | Full

  datatype Outcome = Stored(receipt: Receipt) | Replayed(receipt: Receipt) | Refused(why: Refusal)

  // ---------- Sums over the stored documents ----------

  ghost function SumBytes(docs: map<Id, Document>): int
    decreases |docs|
  {
    if docs == map[] then 0 else
      var id :| id in docs;
      assert (docs - {id}).Keys == docs.Keys - {id};
      |docs[id].markdown| + SumBytes(docs - {id})
  }

  lemma {:induction false} SumPick(docs: map<Id, Document>, id: Id)
    requires id in docs
    ensures SumBytes(docs) == |docs[id].markdown| + SumBytes(docs - {id})
    decreases |docs|
  {
    var v :| v in docs && SumBytes(docs) == |docs[v].markdown| + SumBytes(docs - {v});
    if v != id {
      assert (docs - {v}).Keys == docs.Keys - {v};
      SumPick(docs - {v}, id);
      assert (docs - {id}).Keys == docs.Keys - {id};
      SumPick(docs - {id}, v);
      assert docs - {v} - {id} == docs - {id} - {v};
    }
  }

  function SizeOf(docs: map<Id, Document>, id: Id): nat {
    if id in docs then |docs[id].markdown| else 0
  }

  lemma SumSet(docs: map<Id, Document>, id: Id, d: Document)
    ensures SumBytes(docs[id := d]) == SumBytes(docs) + |d.markdown| - SizeOf(docs, id)
  {
    hide SumBytes;
    SumPick(docs[id := d], id);
    if id in docs {
      SumPick(docs, id);
      assert docs[id := d] - {id} == docs - {id};
    } else {
      assert docs[id := d] - {id} == docs;
    }
  }

  lemma CountSet(docs: map<Id, Document>, id: Id, d: Document)
    ensures |docs[id := d]| == |docs| + (if id in docs then 0 else 1)
  {
    assert docs[id := d].Keys == docs.Keys + {id};
    assert id in docs ==> docs.Keys + {id} == docs.Keys;
  }

  lemma SumDrop(docs: map<Id, Document>, id: Id)
    ensures SumBytes(docs - {id}) == SumBytes(docs) - SizeOf(docs, id)
    ensures |docs - {id}| == |docs| - (if id in docs then 1 else 0)
  {
    assert (docs - {id}).Keys == docs.Keys - {id};
    if id in docs { SumPick(docs, id); } else { assert docs - {id} == docs; }
  }

  // ---------- Storing a batch ----------

  /** Fingerprint and path decide; the stored text may differ in ids and dates. */
  predicate Same(docs: map<Id, Document>, d: Offered) {
    d.id in docs && docs[d.id].fingerprint == d.fingerprint && docs[d.id].path == d.path
  }

  function StoredAs(d: Offered, generation: int): Document { Document(d.path, d.markdown, d.fingerprint, generation) }

  function PutAll(docs: map<Id, Document>, items: seq<Offered>, generation: int): map<Id, Document>
    decreases |items|
  {
    if items == [] then docs
    else
      var d, before := items[|items| - 1], PutAll(docs, items[..|items| - 1], generation);
      if Same(before, d) then before else before[d.id := StoredAs(d, generation)]
  }

  predicate DistinctIds(items: seq<Offered>) {
    forall i, j :: 0 <= i < j < |items| ==> items[i].id != items[j].id
  }

  lemma {:induction false} PutAllOther(docs: map<Id, Document>, items: seq<Offered>, generation: int, id: Id)
    requires forall i :: 0 <= i < |items| ==> items[i].id != id
    ensures var after := PutAll(docs, items, generation);
            (id in after <==> id in docs) && (id in docs ==> after[id] == docs[id])
    decreases |items|
  {
    if items != [] {
      PutAllOther(docs, items[..|items| - 1], generation, id);
    }
  }

  lemma {:induction false} PutAllItem(docs: map<Id, Document>, items: seq<Offered>, generation: int, k: nat)
    requires k < |items| && DistinctIds(items)
    ensures var after, d := PutAll(docs, items, generation), items[k];
            d.id in after && after[d.id] == if Same(docs, d) then docs[d.id] else StoredAs(d, generation)
    decreases |items|
  {
    var n := |items| - 1;
    if k == n {
      PutAllOther(docs, items[..n], generation, items[k].id);
    } else {
      PutAllItem(docs, items[..n], generation, k);
    }
  }

  /** What storing a batch comes to: each changed item under the new generation, the rest untouched. */
  lemma PutAllIs(docs: map<Id, Document>, items: seq<Offered>, generation: int)
    requires DistinctIds(items)
    ensures var after := PutAll(docs, items, generation);
            (forall d :: d in items ==>
               d.id in after && after[d.id] == if Same(docs, d) then docs[d.id] else StoredAs(d, generation))
            && (forall id :: id in docs ==> id in after)
            && (forall id :: id in after && (forall d :: d in items ==> d.id != id) ==> id in docs && after[id] == docs[id])
  {
    hide PutAll;
    var after := PutAll(docs, items, generation);
    forall d | d in items
      ensures d.id in after && after[d.id] == if Same(docs, d) then docs[d.id] else StoredAs(d, generation)
    {
      var k :| 0 <= k < |items| && items[k] == d;
      PutAllItem(docs, items, generation, k);
    }
    forall id: Id
      ensures (forall d :: d in items ==> d.id != id) ==>
                (id in after <==> id in docs) && (id in docs ==> after[id] == docs[id])
    {
      if forall d :: d in items ==> d.id != id { PutAllOther(docs, items, generation, id); }
    }
  }

  /** A stored document after a batch is the old one or one of the batch under the new generation. */
  lemma PutAllOrigin(docs: map<Id, Document>, items: seq<Offered>, generation: int, id: Id)
    requires DistinctIds(items) && id in PutAll(docs, items, generation)
    ensures var d := PutAll(docs, items, generation)[id];
            (id in docs && d == docs[id]) || (d.generation == generation && exists o :: o in items && o.id == id && !Same(docs, o) && d == StoredAs(o, generation))
  {
    PutAllIs(docs, items, generation);
    if o :| o in items && o.id == id {
    }
  }

  /** Adding what changed is a change. */
  lemma PutAllChanges(docs: map<Id, Document>, items: seq<Offered>, generation: int)
    requires DistinctIds(items) && forall id :: id in docs ==> docs[id].generation < generation
    ensures PutAll(docs, items, generation) == docs <==> forall d :: d in items ==> Same(docs, d)
  {
    PutAllIs(docs, items, generation);
    var after := PutAll(docs, items, generation);
    if forall d :: d in items ==> Same(docs, d) {
      forall id | id in after ensures id in docs && after[id] == docs[id] {
        if o :| o in items && o.id == id { }
      }
    } else {
      var d :| d in items && !Same(docs, d);
      assert after[d.id].generation == generation;
    }
  }

  /** The running totals pass a limit at some changed item. */
  ghost predicate Overflows(docs: map<Id, Document>, items: seq<Offered>, generation: int, limit: Capacity) {
    exists k :: 0 <= k < |items| && OverflowsAt(docs, items, generation, limit, k)
  }

  ghost predicate OverflowsAt(docs: map<Id, Document>, items: seq<Offered>, generation: int, limit: Capacity, k: nat)
    requires k < |items|
  {
    !Same(docs, items[k])
    && var after := PutAll(docs, items[..k + 1], generation); SumBytes(after) > limit.bytes || |after| > limit.count
  }

  ghost function Put(l: Library, items: seq<Offered>): Library {
    var docs := PutAll(l.docs, items, l.sequence + 1);
    if docs == l.docs then l
    else l.(docs := docs, sequence := l.sequence + 1, bytes := SumBytes(docs), count := |docs|,
            versions := l.versions + set id | id in docs && docs[id].generation == l.sequence + 1 :: (id, docs[id]))
  }

  function ReceiptFor(docs: map<Id, Document>, sequence: int, b: Batch, n: nat): Receipt
    requires n <= |b.documents|
  {
    if n == 0 then Receipt(b.key, [], 0, 0, sequence)
    else
      var d, r := b.documents[n - 1], ReceiptFor(docs, sequence, b, n - 1);
      if Same(docs, d) then
        r.(items := r.items + [Entry(d.id, d.path, d.fingerprint, SizeOf(docs, d.id), docs[d.id].generation)],
           same := r.same + 1)
      else
        r.(items := r.items + [Entry(d.id, d.path, d.fingerprint, |d.markdown|, sequence + 1)],
           updated := r.updated + 1, sequence := sequence + 1)
  }

  ghost function Keep(l: Library, b: Batch): Library {
    Put(l, b.documents).(receipts := l.receipts[b.key := Kept(b.text, ReceiptFor(l.docs, l.sequence, b, |b.documents|))])
  }

  // ---------- Deleting ----------

  ghost function Present(docs: map<Id, Document>, ids: seq<Id>): set<Id> { set id | id in ids && id in docs }

  ghost function Delete(l: Library, ids: seq<Id>): Library {
    var gone := Present(l.docs, ids);
    if gone == {} then l
    else
      var docs := l.docs - gone;
      l.(docs := docs, sequence := l.sequence + 1, reset := l.sequence + 1, bytes := SumBytes(docs), count := |docs|,
         deletedAt := map id | id in l.deletedAt.Keys + gone :: if id in gone then l.sequence + 1 else l.deletedAt[id])
  }

  // ---------- The invariant ----------

  ghost predicate LibraryOk(l: Library) {
    l.bytes == SumBytes(l.docs) && l.count == |l.docs|
    && 0 <= l.reset <= l.sequence
    && (forall id :: id in l.docs ==> 0 < l.docs[id].generation <= l.sequence && (id, l.docs[id]) in l.versions)
    && (forall id :: id in l.docs ==> l.docs[id].fingerprint != "")
    && (forall id :: id in l.deletedAt ==> 0 < l.deletedAt[id] <= l.reset)
    && (forall id :: id in l.deletedAt && id in l.docs ==> l.deletedAt[id] < l.docs[id].generation)
    && VersionsOk(l)
  }

  /** A version that is not stored now was overwritten later or deleted since. */
  ghost predicate VersionOk(l: Library, v: (Id, Document)) {
    0 < v.1.generation <= l.sequence
    && (if v.0 in l.docs && l.docs[v.0].generation == v.1.generation then l.docs[v.0] == v.1
        else (v.0 in l.docs && l.docs[v.0].generation > v.1.generation)
             || (v.0 in l.deletedAt && l.deletedAt[v.0] > v.1.generation))
  }

  ghost predicate VersionsOk(l: Library) { forall v :: v in l.versions ==> VersionOk(l, v) }

  const EMPTY := Library(map[], 0, 0, 0, 0, map[], {}, map[])

  ghost predicate Fingerprinted(items: seq<Offered>) { forall d :: d in items ==> d.fingerprint != "" }

  lemma PutKeeps(l: Library, items: seq<Offered>)
    requires LibraryOk(l) && DistinctIds(items) && Fingerprinted(items)
    ensures LibraryOk(Put(l, items))
  {
    hide SumBytes, PutAll, Same, VersionsOk, DistinctIds;
    PutGenerations(l, items);
    PutVersions(l, items);
    PutFingerprints(l, items);
  }

  lemma PutFingerprints(l: Library, items: seq<Offered>)
    requires LibraryOk(l) && DistinctIds(items) && Fingerprinted(items)
    ensures forall id :: id in Put(l, items).docs ==> Put(l, items).docs[id].fingerprint != ""
  {
    hide SumBytes, PutAll, Same;
    forall id | id in Put(l, items).docs ensures Put(l, items).docs[id].fingerprint != "" {
      PutAllOrigin(l.docs, items, l.sequence + 1, id);
    }
  }

  /** After a batch, a stored document is what it was or carries the new generation. */
  lemma PutGenerations(l: Library, items: seq<Offered>)
    requires DistinctIds(items)
    ensures forall id :: id in l.docs ==> id in Put(l, items).docs
    ensures forall id :: id in Put(l, items).docs ==>
              (id in l.docs && Put(l, items).docs[id] == l.docs[id]) || Put(l, items).docs[id].generation == l.sequence + 1
  {
    hide SumBytes, PutAll, Same;
    PutAllIs(l.docs, items, l.sequence + 1);
    forall id | id in Put(l, items).docs
      ensures (id in l.docs && Put(l, items).docs[id] == l.docs[id]) || Put(l, items).docs[id].generation == l.sequence + 1
    {
      PutAllOrigin(l.docs, items, l.sequence + 1, id);
    }
  }

  lemma PutVersions(l: Library, items: seq<Offered>)
    requires LibraryOk(l) && DistinctIds(items)
    ensures VersionsOk(Put(l, items))
  {
    hide SumBytes, PutAll, Same;
    var l' := Put(l, items);
    PutGenerations(l, items);
    hide DistinctIds;
    forall v | v in l'.versions
      ensures VersionOk(l', v)
    {
      if v in l.versions { assert VersionOk(l, v); }
    }
  }

  lemma DeleteKeeps(l: Library, ids: seq<Id>)
    requires LibraryOk(l)
    ensures LibraryOk(Delete(l, ids))
  {
    hide SumBytes, VersionsOk;
    DeleteVersions(l, ids);
  }

  lemma DeleteVersions(l: Library, ids: seq<Id>)
    requires LibraryOk(l)
    ensures VersionsOk(Delete(l, ids))
  {
    hide SumBytes, Delete;
    forall v | v in Delete(l, ids).versions
      ensures VersionOk(Delete(l, ids), v)
    {
      DeleteKeepsVersions(l, ids);
      assert VersionOk(l, v);
      DeleteVersion(l, ids, v);
    }
  }

  lemma DeleteKeepsVersions(l: Library, ids: seq<Id>)
    ensures Delete(l, ids).versions == l.versions
  {
  }

  lemma DeleteVersion(l: Library, ids: seq<Id>, v: (Id, Document))
    requires VersionOk(l, v) && (v.0 in l.deletedAt ==> l.deletedAt[v.0] <= l.sequence)
    ensures VersionOk(Delete(l, ids), v)
  {
    hide SumBytes;
    var id := v.0;
    if id in ids && id in l.docs {
      assert Delete(l, ids).deletedAt[id] == l.sequence + 1;
    }
  }

  // ---------- Uploads and deletions, as the source runs them ----------

  /** The first duplicate or invalid item among the first `n`, in the order they are checked. */
  ghost function ItemFault(items: seq<Offered>, valid: Offered -> bool, n: nat): Option<Refusal>
    requires n <= |items|
  {
    if n == 0 then None
    else if ItemFault(items, valid, n - 1).Some? then ItemFault(items, valid, n - 1)
    else if exists i :: 0 <= i < n - 1 && items[i].id == items[n - 1].id then Some(Duplicate)
    else if !valid(items[n - 1]) then Some(Invalid)
    else None
  }

  lemma {:induction false} FaultMeans(items: seq<Offered>, valid: Offered -> bool, n: nat)
    requires n <= |items|
    ensures ItemFault(items, valid, n).None? <==>
              (forall i, j :: 0 <= i < j < n ==> items[i].id != items[j].id) && forall i :: 0 <= i < n ==> valid(items[i])
  {
    if n > 0 { FaultMeans(items, valid, n - 1); }
  }

  datatype Option<T> = None | Some(value: T)

  predicate OutOfTime(b: Batch, now: int) {
    now - b.createdAt * SECOND > OLDEST_UPLOAD || b.createdAt * SECOND - now > EARLIEST_UPLOAD
  }

  predicate OutOfBounds(b: Batch) {
    |b.text| > MAX_UPLOAD_BYTES || b.documents == [] || |b.documents| > MAX_UPLOAD_DOCUMENTS
  }

  ghost function PutOutcome(l: Library, b: Batch, valid: Offered -> bool, now: int, limit: Capacity): Outcome {
    if OutOfBounds(b) then Refused(TooLarge)
    else if OutOfTime(b, now) then Refused(Stale)
    else if ItemFault(b.documents, valid, |b.documents|).Some? then Refused(ItemFault(b.documents, valid, |b.documents|).value)
    else if b.key in l.receipts then
      if l.receipts[b.key].text != b.text then Refused(KeyReused) else Replayed(l.receipts[b.key].receipt)
    else if Overflows(l.docs, b.documents, l.sequence + 1, limit) then Refused(Full)
    else Stored(ReceiptFor(l.docs, l.sequence, b, |b.documents|))
  }

  lemma {:induction false} ReceiptUpdates(docs: map<Id, Document>, sequence: int, b: Batch, n: nat)
    requires n <= |b.documents|
    ensures var r := ReceiptFor(docs, sequence, b, n);
            (r.updated == 0 <==> forall i :: 0 <= i < n ==> Same(docs, b.documents[i]))
            && r.sequence == sequence + (if r.updated == 0 then 0 else 1)
            && r.updated + r.same == n == |r.items|
  {
    if n > 0 { ReceiptUpdates(docs, sequence, b, n - 1); }
  }

  /** An upload whose items check out is clean. */
  lemma Admitted(b: Batch, valid: Offered -> bool)
    requires ItemFault(b.documents, valid, |b.documents|).None? && forall d :: valid(d) ==> d.fingerprint != ""
    ensures DistinctIds(b.documents) && Fingerprinted(b.documents)
  {
    FaultMeans(b.documents, valid, |b.documents|);
    hide ItemFault;
  }

  lemma OutcomeIs(l: Library, b: Batch, valid: Offered -> bool, now: int, limit: Capacity)
    ensures OutOfBounds(b) ==> PutOutcome(l, b, valid, now, limit) == Refused(TooLarge)
    ensures !OutOfBounds(b) && OutOfTime(b, now) ==> PutOutcome(l, b, valid, now, limit) == Refused(Stale)
    ensures var fault := ItemFault(b.documents, valid, |b.documents|);
            !OutOfBounds(b) && !OutOfTime(b, now) ==>
              PutOutcome(l, b, valid, now, limit)
              == if fault.Some? then Refused(fault.value)
                 else if b.key in l.receipts then
                   if l.receipts[b.key].text != b.text then Refused(KeyReused) else Replayed(l.receipts[b.key].receipt)
                 else if Overflows(l.docs, b.documents, l.sequence + 1, limit) then Refused(Full)
                 else Stored(ReceiptFor(l.docs, l.sequence, b, |b.documents|))
  {
    hide ItemFault, Overflows, ReceiptFor, OutOfBounds, OutOfTime;
  }

  class KnowledgeStore {
    var docs: map<Id, Document>
    var sequence: int
    var reset: int
    var knowledgeBytes: int
    var knowledgeCount: int
    var receipts: map<Id, Kept>
    ghost var versions: set<(Id, Document)>
    ghost var deletedAt: map<Id, int>

    ghost function Abs(): Library
      reads this
    {
      Library(docs, sequence, reset, knowledgeBytes, knowledgeCount, receipts, versions, deletedAt)
    }

    constructor ()
      ensures Abs() == EMPTY && LibraryOk(Abs())
    {
      docs, receipts, versions, deletedAt := map[], map[], {}, map[];
      sequence, reset, knowledgeBytes, knowledgeCount := 0, 0, 0, 0;
    }

    /** Either the whole batch takes effect, or nothing but a receipt is read. */
    method PutKnowledge(b: Batch, valid: Offered -> bool, now: int, limit: Capacity) returns (outcome: Outcome)
      requires LibraryOk(Abs()) && forall d :: valid(d) ==> d.fingerprint != ""
      modifies this
      ensures LibraryOk(Abs()) && outcome == PutOutcome(old(Abs()), b, valid, now, limit)
      ensures Abs() == if outcome.Stored? then Keep(old(Abs()), b) else old(Abs())
    {
      hide LibraryOk, Keep, Overflows, ItemFault, ReceiptFor, DistinctIds, Fingerprinted, OutOfBounds, OutOfTime, PutOutcome;
      OutcomeIs(Abs(), b, valid, now, limit);
      if OutOfBounds(b) { return Refused(TooLarge); }
      if OutOfTime(b, now) { return Refused(Stale); }
      var fault := CheckItems(b.documents, valid);
      if fault.Some? { return Refused(fault.value); }
      if b.key in receipts {
        if receipts[b.key].text != b.text { return Refused(KeyReused); }
        return Replayed(receipts[b.key].receipt);
      }
      Admitted(b, valid);
      outcome := StoreBatch(b, limit);
    }

    method StoreBatch(b: Batch, limit: Capacity) returns (outcome: Outcome)
      requires LibraryOk(Abs()) && DistinctIds(b.documents) && Fingerprinted(b.documents)
      modifies this
      ensures LibraryOk(Abs())
      ensures outcome == if Overflows(old(docs), b.documents, old(sequence) + 1, limit) then Refused(Full)
                         else Stored(ReceiptFor(old(docs), old(sequence), b, |b.documents|))
      ensures Abs() == if outcome.Stored? then Keep(old(Abs()), b) else old(Abs())
    {
      hide LibraryOk, Keep, SumBytes, PutAll, ReceiptFor, Overflows, DistinctIds, Fingerprinted, CommitIs;
      ghost var l := Abs();
      CountersAre(l);
      var stored, rows, used, count, out := StoreRows(docs, sequence, knowledgeBytes, knowledgeCount, b, limit);
      if !stored { return Refused(Full); }
      StoredIs(l, b, rows, used, count, out);
      KeepKeeps(l, b);
      Commit(l, b, rows, used, count, out);
      outcome := Stored(out);
    }

    method Commit(ghost l: Library, b: Batch, rows: map<Id, Document>, used: int, count: int, out: Receipt)
      requires Abs() == l && CommitIs(l, b, rows, used, count, out)
      modifies this
      ensures Abs() == Keep(l, b)
    {
      hide SumBytes, PutAll, ReceiptFor;
      versions := Put(l, b.documents).versions;
      docs := rows;
      if out.updated > 0 {
        sequence, knowledgeBytes, knowledgeCount := out.sequence, used, count;
      }
      receipts := receipts[b.key := Kept(b.text, out)];
    }

    /** Refuse a repeated id or an item that does not check out, whichever comes first. */
    method CheckItems(items: seq<Offered>, valid: Offered -> bool) returns (fault: Option<Refusal>)
      ensures fault == ItemFault(items, valid, |items|)
    {
      var seen: set<Id> := {};
      var i := 0;
      while i < |items|
        invariant 0 <= i <= |items| && seen == (set k | 0 <= k < i :: items[k].id)
        invariant ItemFault(items, valid, i).None?
      {
        if items[i].id in seen {
          FaultStays(items, valid, i + 1);
          return Some(Duplicate);
        }
        seen := seen + {items[i].id};
        if !valid(items[i]) {
          FaultStays(items, valid, i + 1);
          return Some(Invalid);
        }
        i := i + 1;
      }
      fault := None;
    }

    /** Remove what is there of the named documents; None when the request is out of bounds. */
    method DeleteKnowledge(ids: seq<Id>) returns (deleted: Option<nat>)
      requires LibraryOk(Abs())
      modifies this
      ensures LibraryOk(Abs())
      ensures deleted.None? <==> ids == [] || |ids| > MAX_DELETED
      ensures Abs() == if deleted.None? then old(Abs()) else Delete(old(Abs()), ids)
      ensures deleted.Some? ==> deleted.value == |old(docs)| - |docs|
    {
      hide LibraryOk, Delete, SumBytes, Present;
      if ids == [] || |ids| > MAX_DELETED { return None; }
      ghost var l := Abs();
      DeleteKeeps(l, ids);
      var rows, bytes, n := RemoveRows(docs, ids);
      DeleteIs(l, ids, rows, bytes, n);
      if n > 0 {
        deletedAt := Delete(l, ids).deletedAt;
        docs, knowledgeBytes, knowledgeCount := rows, knowledgeBytes - bytes, knowledgeCount - n;
        sequence, reset := sequence + 1, sequence + 1;
      }
      deleted := Some(n);
    }
  }

  lemma DeleteIs(l: Library, ids: seq<Id>, rows: map<Id, Document>, bytes: int, n: nat)
    requires LibraryOk(l) && rows == l.docs - Present(l.docs, ids) && (n == 0 <==> Present(l.docs, ids) == {})
    requires SumBytes(rows) == SumBytes(l.docs) - bytes && |rows| == |l.docs| - n
    ensures Delete(l, ids) == if n == 0 then l
                              else Library(rows, l.sequence + 1, l.sequence + 1, l.bytes - bytes, l.count - n, l.receipts,
                                           l.versions, Delete(l, ids).deletedAt)
    ensures n == |l.docs| - |Delete(l, ids).docs|
  {
    hide SumBytes, VersionsOk;
  }

  lemma NonePresent(docs: map<Id, Document>, ids: seq<Id>)
    ensures Present(docs, ids[..0]) == {} && docs - {} == docs
  {
  }

  lemma PresentNext(docs: map<Id, Document>, ids: seq<Id>, i: nat)
    requires i < |ids|
    ensures Present(docs, ids[..i + 1]) == Present(docs, ids[..i]) + (if ids[i] in docs then {ids[i]} else {})
  {
    assert ids[..i + 1] == ids[..i] + [ids[i]];
  }

  lemma DropNext(docs: map<Id, Document>, gone: set<Id>, id: Id)
    ensures docs - (gone + {id}) == docs - gone - {id}
    ensures id in docs - gone <==> id in docs && id !in gone
  {
  }

  method RemoveRows(docs: map<Id, Document>, ids: seq<Id>) returns (rows: map<Id, Document>, bytes: int, n: nat)
    ensures rows == docs - Present(docs, ids) && (n == 0 <==> Present(docs, ids) == {})
    ensures SumBytes(rows) == SumBytes(docs) - bytes && |rows| == |docs| - n
  {
    hide SumBytes, Present;
    rows, bytes, n := docs, 0, 0;
    var i := 0;
    ghost var gone: set<Id> := {};
    NonePresent(docs, ids);
    while i < |ids|
      invariant 0 <= i <= |ids| && rows == docs - gone && (n == 0 <==> gone == {}) && gone == Present(docs, ids[..i])
      invariant SumBytes(rows) == SumBytes(docs) - bytes && |rows| == |docs| - n
    {
      PresentNext(docs, ids, i);
      DropNext(docs, gone, ids[i]);
      if ids[i] in rows {
        SumDrop(rows, ids[i]);
        bytes, n := bytes + |rows[ids[i]].markdown|, n + 1;
        rows := rows - {ids[i]};
        gone := gone + {ids[i]};
      } else {
        assert Present(docs, ids[..i + 1]) == gone;
      }
      i := i + 1;
    }
    assert ids[..i] == ids;
  }

  lemma CountersAre(l: Library)
    requires LibraryOk(l)
    ensures l.bytes == SumBytes(l.docs) && l.count == |l.docs| && forall id :: id in l.docs ==> l.docs[id].fingerprint != ""
  {
    hide SumBytes, VersionsOk;
  }

  /** What the row-by-row loop left is what the batch comes to. */
  ghost predicate CommitIs(l: Library, b: Batch, rows: map<Id, Document>, used: int, count: int, out: Receipt) {
    rows == PutAll(l.docs, b.documents, l.sequence + 1) && used == SumBytes(rows) && count == |rows|
    && out == ReceiptFor(l.docs, l.sequence, b, |b.documents|)
    && (out.updated == 0 <==> rows == l.docs) && (out.updated > 0 ==> out.sequence == l.sequence + 1)
  }

  lemma StoredIs(l: Library, b: Batch, rows: map<Id, Document>, used: int, count: int, out: Receipt)
    requires LibraryOk(l) && DistinctIds(b.documents)
    requires rows == PutAll(l.docs, b.documents, l.sequence + 1) && out == ReceiptFor(l.docs, l.sequence, b, |b.documents|)
    requires used == SumBytes(rows) && count == |rows|
    ensures CommitIs(l, b, rows, used, count, out)
  {
    hide SumBytes, PutAll, Same, ReceiptFor, VersionsOk;
    ReceiptUpdates(l.docs, l.sequence, b, |b.documents|);
    PutAllChanges(l.docs, b.documents, l.sequence + 1);
  }

  lemma KeepKeeps(l: Library, b: Batch)
    requires LibraryOk(l) && DistinctIds(b.documents) && Fingerprinted(b.documents)
    ensures LibraryOk(Keep(l, b))
  {
    hide LibraryOk, Put, ReceiptFor, DistinctIds, Fingerprinted;
    PutKeeps(l, b.documents);
    ReceiptsAside(Put(l, b.documents), Keep(l, b).receipts);
  }

  lemma ReceiptsAside(l: Library, receipts: map<Id, Kept>)
    requires LibraryOk(l)
    ensures LibraryOk(l.(receipts := receipts))
  {
    hide SumBytes;
    forall v | v in l.versions ensures VersionOk(l.(receipts := receipts), v) { assert VersionOk(l, v); }
  }

  /** Where the loop over a batch stands before item `i`. */
  ghost predicate Upto(docs: map<Id, Document>, sequence: int, b: Batch, limit: Capacity, i: nat,
                       rows: map<Id, Document>, used: int, count: int, out: Receipt)
  {
    i <= |b.documents| && rows == PutAll(docs, b.documents[..i], sequence + 1) && used == SumBytes(rows) && count == |rows|
    && out == ReceiptFor(docs, sequence, b, i) && NotOverYet(docs, b.documents, sequence + 1, limit, i)
  }

  ghost predicate NotOverYet(docs: map<Id, Document>, items: seq<Offered>, generation: int, limit: Capacity, i: nat)
    requires i <= |items|
  {
    forall k :: 0 <= k < i ==> !OverflowsAt(docs, items, generation, limit, k)
  }

  /** Write the batch row by row, unless a running total passes a limit. */
  method StoreRows(docs: map<Id, Document>, sequence: int, bytes: int, number: int, b: Batch, limit: Capacity)
    returns (stored: bool, rows: map<Id, Document>, used: int, count: int, out: Receipt)
    requires DistinctIds(b.documents) && Fingerprinted(b.documents) && forall id :: id in docs ==> docs[id].fingerprint != ""
    requires bytes == SumBytes(docs) && number == |docs|
    ensures stored == !Overflows(docs, b.documents, sequence + 1, limit)
    ensures stored ==> rows == PutAll(docs, b.documents, sequence + 1) && used == SumBytes(rows) && count == |rows|
    ensures stored ==> out == ReceiptFor(docs, sequence, b, |b.documents|)
  {
    rows, used, count := docs, bytes, number;
    out := Receipt(b.key, [], 0, 0, sequence);
    var i := 0;
    UptoStart(docs, sequence, b, limit);
    hide *;
    while i < |b.documents|
      invariant 0 <= i <= |b.documents| && Upto(docs, sequence, b, limit, i, rows, used, count, out)
    {
      UptoItem(docs, sequence, b, limit, i, rows, used, count, out);
      var over, rows', used', count', out' := StoreItem(rows, used, count, out, b.documents[i], sequence, limit, docs);
      UptoNext(docs, sequence, b, limit, i, rows, used, count, out, rows', used', count', out');
      rows, used, count, out := rows', used', count', out';
      if over {
        UptoOver(docs, sequence, b, limit, i, used, count);
        return false, rows, used, count, out;
      }
      i := i + 1;
    }
    UptoEnd(docs, sequence, b, limit, rows, used, count, out);
    stored := true;
  }

  lemma UptoStart(docs: map<Id, Document>, sequence: int, b: Batch, limit: Capacity)
    ensures Upto(docs, sequence, b, limit, 0, docs, SumBytes(docs), |docs|, Receipt(b.key, [], 0, 0, sequence))
  {
    hide SumBytes;
  }

  /** What storing one item does to the totals, stated by its effect. */
  ghost predicate ItemStored(docs: map<Id, Document>, sequence: int, d: Offered, rows: map<Id, Document>, out: Receipt,
                             rows': map<Id, Document>, used': int, count': int, out': Receipt)
  {
    rows' == (if Same(docs, d) then rows else rows[d.id := StoredAs(d, sequence + 1)])
    && used' == SumBytes(rows') && count' == |rows'|
    && out' == if Same(docs, d) then
                 out.(items := out.items + [Entry(d.id, d.path, d.fingerprint, SizeOf(docs, d.id), docs[d.id].generation)],
                      same := out.same + 1)
               else
                 out.(items := out.items + [Entry(d.id, d.path, d.fingerprint, |d.markdown|, sequence + 1)],
                      updated := out.updated + 1, sequence := sequence + 1)
  }

  lemma UptoItem(docs: map<Id, Document>, sequence: int, b: Batch, limit: Capacity, i: nat,
                 rows: map<Id, Document>, used: int, count: int, out: Receipt)
    requires i < |b.documents| && DistinctIds(b.documents) && Upto(docs, sequence, b, limit, i, rows, used, count, out)
    requires Fingerprinted(b.documents) && forall id :: id in docs ==> docs[id].fingerprint != ""
    ensures used == SumBytes(rows) && count == |rows|
    ensures var d := b.documents[i];
            (d.id in rows <==> d.id in docs) && (d.id in docs ==> rows[d.id] == docs[d.id] && rows[d.id].fingerprint != "")
            && d.fingerprint != ""
  {
    UpToItem(docs, b.documents, sequence + 1, i);
    hide SumBytes, PutAll, ReceiptFor, OverflowsAt, NotOverYet;
  }

  lemma UptoNext(docs: map<Id, Document>, sequence: int, b: Batch, limit: Capacity, i: nat,
                 rows: map<Id, Document>, used: int, count: int, out: Receipt,
                 rows': map<Id, Document>, used': int, count': int, out': Receipt)
    requires i < |b.documents| && DistinctIds(b.documents) && Upto(docs, sequence, b, limit, i, rows, used, count, out)
    requires ItemStored(docs, sequence, b.documents[i], rows, out, rows', used', count', out')
    ensures rows' == PutAll(docs, b.documents[..i + 1], sequence + 1) && used' == SumBytes(rows') && count' == |rows'|
    ensures Same(docs, b.documents[i]) || (used' <= limit.bytes && count' <= limit.count)
            ==> Upto(docs, sequence, b, limit, i + 1, rows', used', count', out')
  {
    hide PutAll, SumBytes, Same, OverflowsAt, SizeOf, DistinctIds, NotOverYet;
    UpToItem(docs, b.documents, sequence + 1, i);
    OverflowsHere(docs, b.documents, sequence + 1, limit, i);
    NotOverNext(docs, b.documents, sequence + 1, limit, i);
  }

  lemma NotOverNext(docs: map<Id, Document>, items: seq<Offered>, generation: int, limit: Capacity, i: nat)
    requires i < |items| && NotOverYet(docs, items, generation, limit, i)
    ensures !OverflowsAt(docs, items, generation, limit, i) ==> NotOverYet(docs, items, generation, limit, i + 1)
  {
    hide OverflowsAt;
  }

  lemma UptoOver(docs: map<Id, Document>, sequence: int, b: Batch, limit: Capacity, i: nat, used: int, count: int)
    requires i < |b.documents| && !Same(docs, b.documents[i]) && (used > limit.bytes || count > limit.count)
    requires used == SumBytes(PutAll(docs, b.documents[..i + 1], sequence + 1))
    requires count == |PutAll(docs, b.documents[..i + 1], sequence + 1)|
    ensures Overflows(docs, b.documents, sequence + 1, limit)
  {
    assert OverflowsAt(docs, b.documents, sequence + 1, limit, i);
  }

  lemma UptoEnd(docs: map<Id, Document>, sequence: int, b: Batch, limit: Capacity,
                rows: map<Id, Document>, used: int, count: int, out: Receipt)
    requires Upto(docs, sequence, b, limit, |b.documents|, rows, used, count, out)
    ensures !Overflows(docs, b.documents, sequence + 1, limit)
    ensures rows == PutAll(docs, b.documents, sequence + 1) && used == SumBytes(rows) && count == |rows|
    ensures out == ReceiptFor(docs, sequence, b, |b.documents|)
  {
    hide SumBytes, PutAll, OverflowsAt;
    assert b.documents[..|b.documents|] == b.documents;
  }

  /** One row: counted as unchanged, or written if the totals with it stay within the limit. */
  method StoreItem(rows: map<Id, Document>, used: int, count: int, out: Receipt, d: Offered, sequence: int, limit: Capacity,
                   ghost docs: map<Id, Document>)
    returns (over: bool, rows': map<Id, Document>, used': int, count': int, out': Receipt)
    requires d.fingerprint != "" && (d.id in rows ==> rows[d.id].fingerprint != "")
    requires used == SumBytes(rows) && count == |rows|
    requires (d.id in rows <==> d.id in docs) && (d.id in rows ==> rows[d.id] == docs[d.id])
    ensures ItemStored(docs, sequence, d, rows, out, rows', used', count', out')
    ensures over <==> !Same(docs, d) && (used' > limit.bytes || count' > limit.count)
  {
    hide SumBytes;
    rows', used', count', out', over := rows, used, count, out, false;
    var oldHash, oldPath, oldSize, oldSequence := "", "", 0, 0;
    if d.id in rows {
      var was := rows[d.id];
      oldHash, oldPath, oldSize, oldSequence := was.fingerprint, was.path, |was.markdown|, was.generation;
    }
    if oldHash == d.fingerprint && oldPath == d.path {
      out' := out.(same := out.same + 1, items := out.items + [Entry(d.id, d.path, d.fingerprint, oldSize, oldSequence)]);
    } else {
      SumSet(rows, d.id, StoredAs(d, sequence + 1));
      CountSet(rows, d.id, StoredAs(d, sequence + 1));
      used' := used + |d.markdown| - oldSize;
      if oldHash == "" { count' := count + 1; }
      over := used' > limit.bytes || count' > limit.count;
      rows' := rows[d.id := Document(d.path, d.markdown, d.fingerprint, sequence + 1)];
      out' := out.(sequence := sequence + 1, updated := out.updated + 1,
                   items := out.items + [Entry(d.id, d.path, d.fingerprint, |d.markdown|, sequence + 1)]);
    }
  }

  /** Where the batch's earlier items leave item `i`, and what item `i` then adds. */
  lemma UpToItem(docs: map<Id, Document>, items: seq<Offered>, generation: int, i: nat)
    requires DistinctIds(items) && i < |items|
    ensures var rows, d := PutAll(docs, items[..i], generation), items[i];
            (d.id in rows <==> d.id in docs) && (d.id in docs ==> rows[d.id] == docs[d.id])
            && PutAll(docs, items[..i + 1], generation) == if Same(docs, d) then rows else rows[d.id := StoredAs(d, generation)]
  {
    assert items[..i + 1][..i] == items[..i];
    PutAllOther(docs, items[..i], generation, items[i].id);
  }

  lemma OverflowsHere(docs: map<Id, Document>, items: seq<Offered>, generation: int, limit: Capacity, i: nat)
    requires i < |items|
    ensures var after := PutAll(docs, items[..i + 1], generation);
            OverflowsAt(docs, items, generation, limit, i)
            <==> !Same(docs, items[i]) && (SumBytes(after) > limit.bytes || |after| > limit.count)
  {
  }

  /** Once an item is at fault, later items change nothing. */
  lemma {:induction false} FaultStays(items: seq<Offered>, valid: Offered -> bool, n: nat)
    requires n <= |items| && ItemFault(items, valid, n).Some?
    ensures ItemFault(items, valid, |items|) == ItemFault(items, valid, n)
    decreases |items| - n
  {
    if n < |items| { FaultStays(items, valid, n + 1); }
  }

  // ---------- Runs ----------

  datatype Op = Upload(batch: Batch, now: int, limit: Capacity) | Remove(ids: seq<Id>)

  ghost function Do(l: Library, op: Op, valid: Offered -> bool): Library {
    match op
    case Upload(b, now, limit) => if PutOutcome(l, b, valid, now, limit).Stored? then Keep(l, b) else l
    case Remove(ids) => if ids == [] || |ids| > MAX_DELETED then l else Delete(l, ids)
  }

  ghost function AfterAll(l: Library, ops: seq<Op>, valid: Offered -> bool): Library
    decreases |ops|
  {
    if ops == [] then l else AfterAll(Do(l, ops[0], valid), ops[1..], valid)
  }

  lemma StoredIsClean(l: Library, b: Batch, valid: Offered -> bool, now: int, limit: Capacity)
    requires PutOutcome(l, b, valid, now, limit).Stored? && forall d :: valid(d) ==> d.fingerprint != ""
    ensures DistinctIds(b.documents) && Fingerprinted(b.documents)
  {
    FaultMeans(b.documents, valid, |b.documents|);
    hide ItemFault;
  }

  lemma DoKeeps(l: Library, op: Op, valid: Offered -> bool)
    requires LibraryOk(l) && forall d :: valid(d) ==> d.fingerprint != ""
    ensures LibraryOk(Do(l, op, valid))
  {
    hide LibraryOk, PutOutcome, Keep, Delete;
    match op
    case Upload(b, now, limit) =>
      if PutOutcome(l, b, valid, now, limit).Stored? {
        StoredIsClean(l, b, valid, now, limit);
        KeepKeeps(l, b);
      }
    case Remove(ids) => DeleteKeeps(l, ids);
  }

  /** After any uploads and deletions the counters are the sums over what is stored, no
      generation is ahead of the sequence, and deleted versions stay behind the reset. */
  lemma {:induction false} CountersOverRuns(l: Library, ops: seq<Op>, valid: Offered -> bool)
    requires LibraryOk(l) && forall d :: valid(d) ==> d.fingerprint != ""
    ensures LibraryOk(AfterAll(l, ops, valid))
    decreases |ops|
  {
    hide LibraryOk, Do;
    if ops != [] {
      DoKeeps(l, ops[0], valid);
      CountersOverRuns(Do(l, ops[0], valid), ops[1..], valid);
    }
  }

  lemma EmptyIsOk()
    ensures LibraryOk(EMPTY)
  {
  }

  /** The sequence moves, by one, exactly when the stored documents change. */
  lemma SequenceMovesWithDocuments(l: Library, op: Op, valid: Offered -> bool)
    requires LibraryOk(l) && forall d :: valid(d) ==> d.fingerprint != ""
    ensures Do(l, op, valid).sequence == l.sequence + (if Do(l, op, valid).docs == l.docs then 0 else 1)
  {
    hide LibraryOk, PutOutcome, Put, Delete;
    match op {
      case Upload(b, now, limit) => PutMoves(l, b.documents);
      case Remove(ids) => DeleteMoves(l, ids);
    }
  }

  lemma PutMoves(l: Library, items: seq<Offered>)
    ensures Put(l, items).sequence == l.sequence + (if Put(l, items).docs == l.docs then 0 else 1)
  {
    hide SumBytes, PutAll;
  }

  lemma DeleteMoves(l: Library, ids: seq<Id>)
    ensures Delete(l, ids).sequence == l.sequence + (if Delete(l, ids).docs == l.docs then 0 else 1)
  {
    hide SumBytes;
    var gone := Present(l.docs, ids);
    if gone != {} {
      var id :| id in gone;
      assert id !in Delete(l, ids).docs;
    }
  }

  lemma {:induction false} ReceiptsStay(l: Library, ops: seq<Op>, valid: Offered -> bool, key: Id)
    requires key in l.receipts
    ensures key in AfterAll(l, ops, valid).receipts && AfterAll(l, ops, valid).receipts[key] == l.receipts[key]
    decreases |ops|
  {
    if ops != [] {
      ReceiptStays(l, ops[0], valid, key);
      hide Do;
      ReceiptsStay(Do(l, ops[0], valid), ops[1..], valid, key);
    }
  }

  lemma ReceiptStays(l: Library, op: Op, valid: Offered -> bool, key: Id)
    requires key in l.receipts
    ensures key in Do(l, op, valid).receipts && Do(l, op, valid).receipts[key] == l.receipts[key]
  {
    hide SumBytes, PutAll, ReceiptFor, ItemFault, Overflows;
  }

  /** However many uploads and deletions came between, a retry of an accepted upload returns
      the receipt it got the first time and changes nothing. */
  lemma {:induction false} RetryReturnsTheReceipt(l: Library, b: Batch, now: int, limit: Capacity, ops: seq<Op>, later: int,
                                                  newLimit: Capacity, valid: Offered -> bool)
    requires PutOutcome(l, b, valid, now, limit).Stored? && !OutOfTime(b, later)
    ensures var l' := AfterAll(Keep(l, b), ops, valid);
            PutOutcome(l', b, valid, later, newLimit) == Replayed(PutOutcome(l, b, valid, now, limit).receipt)
            && Do(l', Upload(b, later, newLimit), valid) == l'
  {
    ReceiptsStay(Keep(l, b), ops, valid, b.key);
    hide SumBytes, PutAll, ReceiptFor, ItemFault, Overflows, AfterAll, OutOfTime;
  }

  /** However many uploads and deletions came between, the same key under other content never
      replaces the first upload. */
  lemma KeyBelongsToItsContent(l: Library, b: Batch, now: int, limit: Capacity, ops: seq<Op>, other: Batch, later: int,
                               newLimit: Capacity, valid: Offered -> bool)
    requires PutOutcome(l, b, valid, now, limit).Stored? && other.key == b.key && other.text != b.text
    ensures var l' := AfterAll(Keep(l, b), ops, valid);
            PutOutcome(l', other, valid, later, newLimit).Refused? && Do(l', Upload(other, later, newLimit), valid) == l'
  {
    ReceiptsStay(Keep(l, b), ops, valid, b.key);
    hide SumBytes, PutAll, ReceiptFor, ItemFault, Overflows, AfterAll, OutOfTime;
  }
}

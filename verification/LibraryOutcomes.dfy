/** What an accepted upload or deletion leaves behind, told by the stored fields and the offered ones. */
module LibraryOutcomes {
  import opened KnowledgeLibrary

  /** A document is stored under this id with this path and fingerprint. */
  predicate AlreadyStored(docs: map<Id, Document>, o: Offered) {
    o.id in docs && docs[o.id].path == o.path && docs[o.id].fingerprint == o.fingerprint
  }

  /** Stored as it was offered, under this generation. */
  predicate StoredFrom(d: Document, o: Offered, generation: int) {
    d.path == o.path && d.markdown == o.markdown && d.fingerprint == o.fingerprint && d.generation == generation
  }

  /** What is already stored stays as it is; anything else is stored as offered. */
  predicate TakenIn(was: map<Id, Document>, docs: map<Id, Document>, o: Offered, generation: int) {
    o.id in docs && if AlreadyStored(was, o) then docs[o.id] == was[o.id] else StoredFrom(docs[o.id], o, generation)
  }

  predicate AcknowledgedAs(e: Entry, o: Offered, docs: map<Id, Document>) {
    o.id in docs && e.id == o.id && e.path == o.path && e.fingerprint == o.fingerprint
    && e.bytes == |docs[o.id].markdown| && e.sequence == docs[o.id].generation
  }

  /** What an offer already stored leaves, and what a new or changed one does: a path alone is a change,
      a text alone is none. */
  lemma OfferedIsStored(l: Library, items: seq<Offered>, o: Offered)
    requires DistinctIds(items) && o in items
    ensures var docs := Put(l, items).docs;
            TakenIn(l.docs, docs, o, l.sequence + 1) && docs[o.id].path == o.path && docs[o.id].fingerprint == o.fingerprint
  {
    hide PutAll, SumBytes;
    PutAllIs(l.docs, items, l.sequence + 1);
  }

  lemma OthersStay(l: Library, items: seq<Offered>, id: Id)
    requires DistinctIds(items) && forall o :: o in items ==> o.id != id
    ensures var docs := Put(l, items).docs; (id in docs <==> id in l.docs) && (id in docs ==> docs[id] == l.docs[id])
  {
    hide PutAll, SumBytes;
    PutAllIs(l.docs, items, l.sequence + 1);
  }

  lemma {:induction false} Acknowledged(docs: map<Id, Document>, sequence: int, b: Batch, n: nat, after: map<Id, Document>)
    requires n <= |b.documents|
    requires forall o :: o in b.documents ==> TakenIn(docs, after, o, sequence + 1)
    ensures var r := ReceiptFor(docs, sequence, b, n);
            r.key == b.key && |r.items| == n && forall i :: 0 <= i < n ==> AcknowledgedAs(r.items[i], b.documents[i], after)
    decreases n
  {
    if n > 0 {
      Acknowledged(docs, sequence, b, n - 1, after);
      var o := b.documents[n - 1];
      assert o in b.documents;
    }
  }

  /** The changed items among the first `n`. */
  function Changed(docs: map<Id, Document>, items: seq<Offered>, n: nat): set<int>
    requires n <= |items|
  {
    set i | 0 <= i < n && !AlreadyStored(docs, items[i])
  }

  lemma {:induction false} ReceiptCounts(docs: map<Id, Document>, sequence: int, b: Batch, n: nat)
    requires n <= |b.documents|
    ensures var r := ReceiptFor(docs, sequence, b, n);
            r.updated == |Changed(docs, b.documents, n)| && r.same == n - r.updated
            && r.sequence == if r.updated == 0 then sequence else sequence + 1
    decreases n
  {
    hide Changed;
    if n > 0 {
      ReceiptCounts(docs, sequence, b, n - 1);
      ChangedNext(docs, b.documents, n);
    } else {
      NoneChanged(docs, b.documents);
    }
  }

  lemma ChangedNext(docs: map<Id, Document>, items: seq<Offered>, n: nat)
    requires 0 < n <= |items|
    ensures |Changed(docs, items, n)| == |Changed(docs, items, n - 1)| + if AlreadyStored(docs, items[n - 1]) then 0 else 1
  {
    hide AlreadyStored;
    var was, now := Changed(docs, items, n - 1), Changed(docs, items, n);
    if AlreadyStored(docs, items[n - 1]) { assert now == was; } else { assert now == was + {n - 1}; }
  }

  lemma NoneChanged(docs: map<Id, Document>, items: seq<Offered>)
    ensures Changed(docs, items, 0) == {}
  {
  }

  /** An accepted upload: every item stored or already there, others untouched, the sequence one further
      exactly if something changed, and a receipt that says so of each item. */
  lemma UploadTakesEffect(l: Library, b: Batch, valid: Offered -> bool, now: int, limit: Capacity)
    requires LibraryOk(l) && (forall d :: valid(d) ==> d.fingerprint != "") && PutOutcome(l, b, valid, now, limit).Stored?
    ensures var l', r := Do(l, Upload(b, now, limit), valid), PutOutcome(l, b, valid, now, limit).receipt;
            (forall o :: o in b.documents ==> TakenIn(l.docs, l'.docs, o, l.sequence + 1))
            && (forall id :: (forall o :: o in b.documents ==> o.id != id) ==>
                  (id in l'.docs <==> id in l.docs) && (id in l'.docs ==> l'.docs[id] == l.docs[id]))
            && l'.sequence == (if forall o :: o in b.documents ==> AlreadyStored(l.docs, o) then l.sequence else l.sequence + 1)
            && l'.reset == l.reset && b.key in l'.receipts && l'.receipts[b.key] == Kept(b.text, r)
            && r.key == b.key && r.sequence == l'.sequence && |r.items| == |b.documents|
            && (forall i :: 0 <= i < |b.documents| ==> AcknowledgedAs(r.items[i], b.documents[i], l'.docs))
            && r.updated == |Changed(l.docs, b.documents, |b.documents|)| && r.same == |b.documents| - r.updated
  {
    hide LibraryOk, PutOutcome, Put, ReceiptFor, DistinctIds, AlreadyStored, TakenIn, AcknowledgedAs, Changed;
    StoredIsClean(l, b, valid, now, limit);
    StoredReceipt(l, b, valid, now, limit);
    var items := b.documents;
    forall o | o in items ensures TakenIn(l.docs, Put(l, items).docs, o, l.sequence + 1) { OfferedIsStored(l, items, o); }
    forall id: Id | forall o :: o in items ==> o.id != id
      ensures (id in Put(l, items).docs <==> id in l.docs) && (id in Put(l, items).docs ==> Put(l, items).docs[id] == l.docs[id])
    {
      OthersStay(l, items, id);
    }
    Acknowledged(l.docs, l.sequence, b, |items|, Put(l, items).docs);
    ReceiptCounts(l.docs, l.sequence, b, |items|);
    SequenceMoves(l, items);
    NothingChanged(l.docs, items);
  }

  lemma StoredReceipt(l: Library, b: Batch, valid: Offered -> bool, now: int, limit: Capacity)
    requires PutOutcome(l, b, valid, now, limit).Stored?
    ensures PutOutcome(l, b, valid, now, limit).receipt == ReceiptFor(l.docs, l.sequence, b, |b.documents|)
    ensures Do(l, Upload(b, now, limit), valid) == Keep(l, b)
  {
    hide ItemFault, Overflows, ReceiptFor, OutOfBounds, OutOfTime, Keep;
  }

  lemma NothingChanged(docs: map<Id, Document>, items: seq<Offered>)
    ensures |Changed(docs, items, |items|)| == 0 <==> forall o :: o in items ==> AlreadyStored(docs, o)
  {
    var all := Changed(docs, items, |items|);
    if |all| == 0 {
      forall o | o in items ensures AlreadyStored(docs, o) {
        var i :| 0 <= i < |items| && items[i] == o;
        assert i !in all;
      }
    } else {
      var i :| i in all;
      assert items[i] in items;
    }
  }

  lemma SequenceMoves(l: Library, items: seq<Offered>)
    requires LibraryOk(l) && DistinctIds(items)
    ensures Put(l, items).sequence == (if forall o :: o in items ==> AlreadyStored(l.docs, o) then l.sequence else l.sequence + 1)
    ensures Put(l, items).reset == l.reset
  {
    hide PutAll, SumBytes, VersionsOk;
    PutAllChanges(l.docs, items, l.sequence + 1);
    assert forall o :: Same(l.docs, o) <==> AlreadyStored(l.docs, o);
  }

  /** Whether an upload is taken: it is in bounds and in time, its items check out and have ids of their
      own, its key is new, and no item that changes something takes the totals past a limit. */
  lemma UploadIsTakenIff(l: Library, b: Batch, valid: Offered -> bool, now: int, limit: Capacity)
    ensures PutOutcome(l, b, valid, now, limit).Stored? <==>
              |b.text| <= 1536 * 1024 && 1 <= |b.documents| <= 50
              && now - b.createdAt * SECOND <= 24 * 3600 * SECOND && b.createdAt * SECOND - now <= 300 * SECOND
              && (forall i, j :: 0 <= i < j < |b.documents| ==> b.documents[i].id != b.documents[j].id)
              && (forall i :: 0 <= i < |b.documents| ==> valid(b.documents[i]))
              && b.key !in l.receipts && !Overflows(l.docs, b.documents, l.sequence + 1, limit)
  {
    hide ItemFault, Overflows, ReceiptFor;
    FaultMeans(b.documents, valid, |b.documents|);
  }

  /** A taken deletion: exactly the ids asked for are gone, and the index is told to forget them. */
  lemma DeletionTakesEffect(l: Library, ids: seq<Id>)
    requires LibraryOk(l) && 1 <= |ids| <= 500
    ensures var l' := Do(l, Remove(ids), (o: Offered) => true);
            (forall id :: id in l'.docs <==> id in l.docs && id !in ids) && (forall id :: id in l'.docs ==> l'.docs[id] == l.docs[id])
            && (if exists id :: id in ids && id in l.docs
                then l'.sequence == l.sequence + 1 && l'.reset == l.sequence + 1
                else l'.sequence == l.sequence && l'.reset == l.reset)
            && l'.receipts == l.receipts
  {
    hide SumBytes, VersionsOk;
    if id :| id in ids && id in l.docs { assert id in Present(l.docs, ids); }
  }
}

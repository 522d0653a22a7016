/** The search index of one community: its tables, and the worker's step over them.

  Every function here is what one database statement (or one transaction) leaves behind.
  A search row stands for the tokenised text the engine keeps of a document.
 */
module SearchIndex {
  import opened KnowledgeLibrary

  const PAGE := 32

  datatype Row = Row(id: Id, markdown: string, fingerprint: string)

  datatype Record = Record(path: string, markdown: string, fingerprint: string, generation: int, rowid: nat)

  datatype Incoming = Incoming(id: Id, path: string, markdown: string, fingerprint: string, generation: int)

  datatype Cursor = Cursor(generation: int, id: Id)

  datatype Progress = Progress(sequence: Option<int>, reset: Option<int>, cursor: Option<Cursor>)

  /** `meta` is keyed by the path docs/<id>.md, so by id. */
  datatype Index = Index(rows: map<nat, Row>, meta: map<Id, Row>, records: map<Id, Record>, progress: Progress)

  const NO_PROGRESS := Progress(None, None, None)

  const EMPTY_INDEX := Index(map[], map[], map[], NO_PROGRESS)

  // ---------- Positions in (generation, id) order ----------

  predicate Before(a: Cursor, b: Cursor) {
    a.generation < b.generation || (a.generation == b.generation && a.id < b.id)
  }

  function At(docs: map<Id, Document>, id: Id): Cursor
    requires id in docs
  {
    Cursor(docs[id].generation, id)
  }

  function AtItem(r: Incoming): Cursor { Cursor(r.generation, r.id) }

  function ItemOf(id: Id, d: Document): Incoming { Incoming(id, d.path, d.markdown, d.fingerprint, d.generation) }

  function Sequence(i: Index): int { if i.progress.sequence.Some? then i.progress.sequence.value else 0 }

  /** Where the next page starts: past everything up to the committed sequence, or at the cursor. */
  function StartAt(i: Index): Cursor {
    var g := if i.progress.cursor.Some? then i.progress.cursor.value.generation else 0;
    if g < Sequence(i) then Cursor(Sequence(i), MAX_ID)
    else Cursor(g, if i.progress.cursor.Some? then i.progress.cursor.value.id else 0)
  }

  /** A deletion newer than the index, that it was not cleared for yet. */
  predicate NeedsClear(i: Index, reset: int) { reset > Sequence(i) && i.progress.reset != Some(reset) }

  // ---------- Statements ----------

  function ClearStatement(i: Index, k: nat, reset: int): Index {
    match k
    case 0 => i.(rows := map[])
    case 1 => i.(meta := map[])
    case 2 => i.(records := map[])
    case 3 => i.(progress := NO_PROGRESS)
    case _ => i.(progress := i.progress.(reset := Some(reset)))
  }

  function Cleared(reset: int): Index { EMPTY_INDEX.(progress := NO_PROGRESS.(reset := Some(reset))) }

  ghost predicate IsTop(rows: map<nat, Row>, top: nat) {
    (forall n :: n in rows ==> n <= top) && (top == 0 || top in rows)
  }

  /** The engine numbers a new row one past the highest. */
  ghost function NextRowid(rows: map<nat, Row>): (n: nat)
    ensures n !in rows && n > 0 && IsTop(rows, n - 1)
  {
    TopExists(rows);
    var top: nat :| IsTop(rows, top);
    top + 1
  }

  lemma {:induction false} TopExists(rows: map<nat, Row>)
    ensures exists top: nat :: IsTop(rows, top)
    decreases |rows|
  {
    if rows == map[] {
      assert IsTop(rows, 0);
    } else {
      var n :| n in rows;
      var rest := rows - {n};
      assert rest.Keys == rows.Keys - {n};
      TopExists(rest);
      var top: nat :| IsTop(rest, top);
      assert forall m :: m in rows ==> m == n || m in rest;
      assert IsTop(rows, if n < top then top else n);
    }
  }

  lemma TopUnique(rows: map<nat, Row>, a: nat, b: nat)
    requires IsTop(rows, a) && IsTop(rows, b)
    ensures a == b
  {
  }

  function Unindexed(i: Index, id: Id): map<nat, Row> {
    if id in i.records then i.rows - {i.records[id].rowid} else i.rows
  }

  /** One record of a batch: its old search row goes, the new one and the record come. */
  ghost function ApplyOne(i: Index, r: Incoming): Index {
    var rows, n := Unindexed(i, r.id), NextRowid(Unindexed(i, r.id));
    var row := Row(r.id, r.markdown, r.fingerprint);
    Index(rows[n := row], i.meta[r.id := row],
          i.records[r.id := Record(r.path, r.markdown, r.fingerprint, r.generation, n)], i.progress)
  }

  ghost function ApplyAll(i: Index, batch: seq<Incoming>): Index
    decreases |batch|
  {
    if batch == [] then i else ApplyOne(ApplyAll(i, batch[..|batch| - 1]), batch[|batch| - 1])
  }

  /** The batch transaction; the last page also commits the sequence it was read for. */
  ghost function Commit(i: Index, batch: seq<Incoming>, target: int): Index {
    var j := ApplyAll(i, batch);
    if |batch| < PAGE then j.(progress := j.progress.(sequence := Some(target))) else j
  }

  function MoveCursor(i: Index, cursor: Option<Cursor>): Index { i.(progress := i.progress.(cursor := cursor)) }

  function NextCursor(batch: seq<Incoming>): Option<Cursor> {
    if |batch| < PAGE then None else Some(AtItem(batch[|batch| - 1]))
  }

  // ---------- A page of documents ----------

  predicate Eligible(docs: map<Id, Document>, id: Id, from: Cursor, target: int) {
    id in docs && Before(from, At(docs, id)) && docs[id].generation <= target
  }

  ghost predicate InBatch(batch: seq<Incoming>, id: Id) { exists k :: 0 <= k < |batch| && batch[k].id == id }

  ghost predicate Ordered(batch: seq<Incoming>) {
    forall j, k :: 0 <= j < k < |batch| ==> Before(AtItem(batch[j]), AtItem(batch[k]))
  }

  /** The first documents after `from`, up to a page of them, in order, and nothing skipped. */
  ghost predicate IsPage(docs: map<Id, Document>, from: Cursor, target: int, batch: seq<Incoming>) {
    |batch| <= PAGE && Ordered(batch)
    && (forall k :: 0 <= k < |batch| ==> Eligible(docs, batch[k].id, from, target) && batch[k] == ItemOf(batch[k].id, docs[batch[k].id]))
    && (forall id :: Eligible(docs, id, from, target) ==>
          InBatch(batch, id) || (|batch| == PAGE && Before(AtItem(batch[PAGE - 1]), At(docs, id))))
  }

  /** A worker's step that nothing interrupts: target and reset as read at its start, the
      documents as they are when it reads the page. */
  ghost predicate IsStep(i: Index, target: int, reset: int, docs: map<Id, Document>, j: Index, worked: bool) {
    if i.progress.sequence == Some(target) then j == i && !worked
    else
      var c := if NeedsClear(i, reset) then Cleared(reset) else i;
      exists batch :: IsPage(docs, StartAt(c), target, batch)
                      && j == MoveCursor(Commit(c, batch, target), NextCursor(batch)) && worked == (batch != [])
  }

  // ---------- The tables, updated in place ----------

  /** The first eligible document after `from`, if there is one. */
  method FirstAfter(docs: map<Id, Document>, from: Cursor, target: int) returns (first: Option<Id>)
    ensures first.Some? ==> Eligible(docs, first.value, from, target)
    ensures first.Some? ==> forall id :: Eligible(docs, id, from, target) && id != first.value ==>
                              Before(At(docs, first.value), At(docs, id))
    ensures first.None? ==> forall id :: !Eligible(docs, id, from, target)
  {
    first := None;
    var rest := docs.Keys;
    while rest != {}
      invariant rest <= docs.Keys
      invariant first.Some? ==> Eligible(docs, first.value, from, target) && first.value !in rest
      invariant forall id :: Eligible(docs, id, from, target) && id !in rest ==>
                  first.Some? && (id == first.value || Before(At(docs, first.value), At(docs, id)))
      decreases rest
    {
      var id :| id in rest;
      if Before(from, At(docs, id)) && docs[id].generation <= target
         && (first.None? || Before(At(docs, id), At(docs, first.value))) {
        first := Some(id);
      }
      rest := rest - {id};
    }
  }

  /** Pages are read in order of (generation, id), 32 at a time. */
  method ReadPage(docs: map<Id, Document>, from: Cursor, target: int) returns (batch: seq<Incoming>)
    ensures IsPage(docs, from, target, batch)
  {
    batch := [];
    var at := from;
    var more := true;
    while more && |batch| < PAGE
      invariant |batch| <= PAGE && PageSoFar(docs, from, target, batch, at)
      invariant !more ==> forall id :: !Eligible(docs, id, at, target)
      decreases PAGE - |batch|, more
    {
      var first := FirstAfter(docs, at, target);
      if first.Some? {
        PageGrows(docs, from, target, batch, at, first.value);
        batch := batch + [ItemOf(first.value, docs[first.value])];
        at := At(docs, first.value);
      } else {
        more := false;
      }
    }
    PageEnds(docs, from, target, batch, at);
  }

  lemma PageEnds(docs: map<Id, Document>, from: Cursor, target: int, batch: seq<Incoming>, at: Cursor)
    requires PageSoFar(docs, from, target, batch, at) && |batch| <= PAGE
    requires |batch| < PAGE ==> forall id :: !Eligible(docs, id, at, target)
    ensures IsPage(docs, from, target, batch)
  {
    forall id | Eligible(docs, id, from, target)
      ensures InBatch(batch, id) || (|batch| == PAGE && Before(AtItem(batch[PAGE - 1]), At(docs, id)))
    {
      assert !Eligible(docs, id, at, target) || |batch| == PAGE;
    }
  }

  ghost predicate PageSoFar(docs: map<Id, Document>, from: Cursor, target: int, batch: seq<Incoming>, at: Cursor) {
    Ordered(batch) && (at == if batch == [] then from else AtItem(batch[|batch| - 1]))
    && (forall k :: 0 <= k < |batch| ==> Eligible(docs, batch[k].id, from, target) && batch[k] == ItemOf(batch[k].id, docs[batch[k].id]))
    && (forall id :: Eligible(docs, id, from, target) ==> InBatch(batch, id) || Before(at, At(docs, id)))
  }

  lemma PageGrows(docs: map<Id, Document>, from: Cursor, target: int, batch: seq<Incoming>, at: Cursor, id: Id)
    requires PageSoFar(docs, from, target, batch, at) && Eligible(docs, id, at, target)
    requires forall d :: Eligible(docs, d, at, target) && d != id ==> Before(At(docs, id), At(docs, d))
    ensures PageSoFar(docs, from, target, batch + [ItemOf(id, docs[id])], At(docs, id))
  {
    var more := batch + [ItemOf(id, docs[id])];
    assert forall k :: 0 <= k < |batch| ==> more[k] == batch[k];
    assert more[|batch|].id == id;
    forall d | Eligible(docs, d, from, target) ensures InBatch(more, d) || Before(At(docs, id), At(docs, d)) {
      if InBatch(batch, d) {
        var k :| 0 <= k < |batch| && batch[k].id == d;
        assert more[k].id == d;
      }
    }
    assert batch != [] ==> Before(AtItem(batch[|batch| - 1]), At(docs, id));
  }

  class IndexFile {
    var rows: map<nat, Row>
    var meta: map<Id, Row>
    var records: map<Id, Record>
    var sequence: Option<int>
    var reset: Option<int>
    var cursor: Option<Cursor>

    ghost function Abs(): Index
      reads this
    {
      Index(rows, meta, records, Progress(sequence, reset, cursor))
    }

    constructor ()
      ensures Abs() == EMPTY_INDEX
    {
      rows, meta, records := map[], map[], map[];
      sequence, reset, cursor := None, None, None;
    }

    /** Row and record of every document in the batch are replaced together. */
    method ApplyRemoteRecords(batch: seq<Incoming>, committed: int)
      modifies this`rows, this`meta, this`records, this`sequence
      ensures Abs() == if committed >= 0 then
                         ApplyAll(old(Abs()), batch).(progress := Progress(Some(committed), reset, cursor))
                       else ApplyAll(old(Abs()), batch)
    {
      ghost var i := Abs();
      var k := 0;
      assert batch[..0] == [];
      while k < |batch|
        invariant 0 <= k <= |batch| && Abs() == ApplyAll(i, batch[..k])
      {
        assert batch[..k + 1][..k] == batch[..k];
        ApplyRecord(batch[k]);
        k := k + 1;
      }
      assert batch[..k] == batch;
      if committed >= 0 { sequence := Some(committed); }
    }

    method ApplyRecord(r: Incoming)
      modifies this`rows, this`meta, this`records
      ensures Abs() == ApplyOne(old(Abs()), r)
    {
      if r.id in records {
        rows := rows - {records[r.id].rowid};
      }
      var rowid := InsertRow(Row(r.id, r.markdown, r.fingerprint));
      meta := meta - {r.id};
      meta := meta[r.id := Row(r.id, r.markdown, r.fingerprint)];
      records := records[r.id := Record(r.path, r.markdown, r.fingerprint, r.generation, rowid)];
      assert meta == old(meta)[r.id := Row(r.id, r.markdown, r.fingerprint)];
    }

    method InsertRow(row: Row) returns (rowid: nat)
      modifies this`rows
      ensures rowid == NextRowid(old(rows)) && rows == old(rows)[rowid := row]
    {
      var top: nat := 0;
      var rest := rows.Keys;
      while rest != {}
        invariant rest <= rows.Keys && (top == 0 || top in rows)
        invariant forall n :: n in rows && n !in rest ==> n <= top
        decreases rest
      {
        var n :| n in rest;
        if n > top { top := n; }
        rest := rest - {n};
      }
      TopUnique(rows, top, NextRowid(rows) - 1);
      rowid := top + 1;
      rows := rows[rowid := row];
    }

    /** One bounded step: clear after a deletion, then index one page and move on. */
    method Step(target: int, newReset: int, docs: map<Id, Document>) returns (worked: bool)
      requires target >= 0
      modifies this
      ensures IsStep(old(Abs()), target, newReset, docs, Abs(), worked)
    {
      var seqNow := if sequence.Some? then sequence.value else 0;
      if sequence.Some? && seqNow == target { return false; }
      if newReset > seqNow && reset != Some(newReset) {
        rows := map[];
        meta := map[];
        records := map[];
        sequence, reset, cursor := None, None, None;
        reset := Some(newReset);
        seqNow := 0;
      }
      ghost var c := Abs();
      var at := Cursor(0, 0);
      if cursor.Some? { at := cursor.value; }
      if at.generation < seqNow { at := Cursor(seqNow, MAX_ID); }
      assert at == StartAt(c);
      var batch := ReadPage(docs, at, target);
      var complete := |batch| < PAGE;
      ApplyRemoteRecords(batch, if complete then target else -1);
      if complete {
        cursor := None;
      } else {
        cursor := Some(AtItem(batch[|batch| - 1]));
      }
      ApplyKeepsProgress(c, batch);
      assert Abs() == MoveCursor(Commit(c, batch, target), NextCursor(batch));
      worked := |batch| > 0;
    }
  }

  lemma {:induction false} ApplyKeepsProgress(i: Index, batch: seq<Incoming>)
    ensures ApplyAll(i, batch).progress == i.progress
    decreases |batch|
  {
    if batch != [] { ApplyKeepsProgress(i, batch[..|batch| - 1]); }
  }
}

/** The index worker against writers: uploads and deletions may land, and the worker may die,
  between any two of its statements.

  There is one worker. It holds the community's index lock from its check on, so only the
  library changes under it; what it read of the library may be out of date at once.
 */
module IndexAgreement {
  import opened KnowledgeLibrary
  import opened SearchIndex

  datatype Worker =
    | Resting
    | Begun(target: int, reset: int)
    | Clearing(target: int, reset: int, done: nat)
    | Ready(target: int)
    | Fetched(target: int, batch: seq<Incoming>)
    | Committed(target: int, next: Option<Cursor>)

  datatype State = State(library: Library, index: Index, worker: Worker)

  datatype Event =
    | Upload(items: seq<Offered>)
    | Removal(ids: seq<Id>)
    | ReadTarget
    | Check
    | ClearNext
    | Fetch(batch: seq<Incoming>)
    | Apply
    | Move
    | Crash
    | Wipe

  ghost predicate Enabled(s: State, e: Event) {
    match e
    case Upload(items) => DistinctIds(items) && Fingerprinted(items)
    case Removal(_) => true
    case ReadTarget => s.worker.Resting?
    case Check => s.worker.Begun?
    case ClearNext => s.worker.Clearing? && s.worker.done < 5
    case Fetch(batch) => s.worker.Ready? && IsPage(s.library.docs, StartAt(s.index), s.worker.target, batch)
    case Apply => s.worker.Fetched?
    case Move => s.worker.Committed?
    case Crash => true
    case Wipe => s.worker.Resting? || s.worker.Begun?
  }

  ghost function Next(s: State, e: Event): State
    requires Enabled(s, e)
  {
    match e
    case Upload(items) => s.(library := Put(s.library, items))
    case Removal(ids) => s.(library := Delete(s.library, ids))
    case ReadTarget => s.(worker := Begun(s.library.sequence, s.library.reset))
    case Check =>
      var Begun(target, reset) := s.worker;
      if s.index.progress.sequence == Some(target) then s.(worker := Resting)
      else if NeedsClear(s.index, reset) then s.(worker := Clearing(target, reset, 0))
      else s.(worker := Ready(target))
    case ClearNext =>
      var Clearing(target, reset, k) := s.worker;
      s.(index := ClearStatement(s.index, k, reset), worker := if k == 4 then Ready(target) else Clearing(target, reset, k + 1))
    case Fetch(batch) => s.(worker := Fetched(s.worker.target, batch))
    case Apply =>
      s.(index := Commit(s.index, s.worker.batch, s.worker.target),
         worker := Committed(s.worker.target, NextCursor(s.worker.batch)))
    case Move => s.(index := MoveCursor(s.index, s.worker.next), worker := Resting)
    case Crash => s.(worker := Resting)
    case Wipe => s.(index := EMPTY_INDEX)
  }

  // ---------- What holds of the index ----------

  function AsDocument(r: Record): Document { Document(r.path, r.markdown, r.fingerprint, r.generation) }

  /** One search row and one metadata row per record, and no other rows. */
  ghost predicate RowsFit(i: Index) {
    (forall id :: id in i.records ==> RowFits(i, id))
    && (forall n :: n in i.rows ==> i.rows[n].id in i.records && i.records[i.rows[n].id].rowid == n)
    && i.meta.Keys == i.records.Keys
  }

  ghost predicate RowFits(i: Index, id: Id)
    requires id in i.records
  {
    var r := i.records[id];
    r.rowid in i.rows && i.rows[r.rowid] == Row(id, r.markdown, r.fingerprint)
    && id in i.meta && i.meta[id] == Row(id, r.markdown, r.fingerprint)
  }

  ghost predicate Indexed(docs: map<Id, Document>, i: Index, id: Id)
    requires id in docs
  {
    id in i.records && AsDocument(i.records[id]) == docs[id]
  }

  /** The index is past this position. */
  predicate Passed(i: Index, at: Cursor) { at.generation <= Sequence(i) || !Before(StartAt(i), at) }

  /** Every current document the index is past is in it exactly as stored. */
  ghost predicate Covered(docs: map<Id, Document>, i: Index) {
    forall id :: id in docs && Passed(i, At(docs, id)) ==> Indexed(docs, i, id)
  }

  ghost predicate Sound(docs: map<Id, Document>, i: Index) { RowsFit(i) && Covered(docs, i) }

  ghost predicate RecordsStored(l: Library, i: Index) {
    forall id :: id in i.records ==> (id, AsDocument(i.records[id])) in l.versions
  }

  predicate DeletedSince(l: Library, id: Id, generation: int) { id in l.deletedAt && generation < l.deletedAt[id] }

  predicate Under(v: Option<int>, bound: int) { v.Some? ==> v.value < bound }

  predicate AtMost(v: Option<int>, bound: int) { v.Some? ==> v.value <= bound }

  /** While a deleted version is in the index, the index admits to being older than the deletion. */
  ghost predicate DeletedLag(l: Library, i: Index) {
    forall id :: id in i.records && DeletedSince(l, id, i.records[id].generation) ==>
      Under(i.progress.sequence, l.deletedAt[id]) && Under(i.progress.reset, l.deletedAt[id])
  }

  /** No progress is ahead of what has happened by `target` and `reset`. */
  predicate ProgressUpTo(i: Index, target: int, reset: int) {
    AtMost(i.progress.sequence, target) && AtMost(i.progress.reset, reset)
    && (i.progress.cursor.Some? ==> i.progress.cursor.value.generation <= target)
  }

  ghost predicate IndexOk(l: Library, i: Index) {
    RecordsStored(l, i) && DeletedLag(l, i) && ProgressUpTo(i, l.sequence, l.reset)
    && (Sound(l.docs, i) || NeedsClear(i, l.reset))
  }

  // ---------- What the worker knows ----------

  /** Deletions are either known to the worker's reset or later than its target. */
  ghost predicate ReadTogether(l: Library, target: int, reset: int) {
    0 <= reset <= target <= l.sequence && reset <= l.reset
    && forall id :: id in l.deletedAt ==> l.deletedAt[id] <= reset || l.deletedAt[id] > target
  }

  /** A clear under way: nothing left of what the statements so far delete. */
  ghost predicate ClearedSoFar(i: Index, done: nat) {
    (done >= 1 ==> i.rows == map[]) && (done >= 2 ==> i.meta == map[]) && (done >= 3 ==> i.records == map[])
    && (done >= 4 ==> i.progress == NO_PROGRESS)
  }

  /** The worker may index: nothing damaged, and no deletion up to its target unnoticed. */
  ghost predicate Clean(l: Library, i: Index, target: int) {
    0 <= target <= l.sequence && Sound(l.docs, i) && AtMost(i.progress.sequence, target)
    && (i.progress.cursor.Some? ==> i.progress.cursor.value.generation <= target) && AtMost(i.progress.reset, target)
    && forall id :: id in i.records && DeletedSince(l, id, i.records[id].generation) ==> l.deletedAt[id] > target
  }

  /** A fetched version is current, or was replaced or deleted after the target. */
  ghost predicate Fresh(l: Library, r: Incoming, target: int) {
    r.generation <= target
    && (r.id, Document(r.path, r.markdown, r.fingerprint, r.generation)) in l.versions
    && (r.id in l.docs ==> r == ItemOf(r.id, l.docs[r.id]) || l.docs[r.id].generation > target)
    && (DeletedSince(l, r.id, r.generation) ==> l.deletedAt[r.id] > target)
  }

  ghost predicate DistinctItems(batch: seq<Incoming>) {
    forall j, k :: 0 <= j < k < |batch| ==> batch[j].id != batch[k].id
  }

  /** What a page is still worth when writers have moved on. */
  ghost predicate PageHeld(l: Library, from: Cursor, target: int, batch: seq<Incoming>) {
    |batch| <= PAGE && Ordered(batch) && DistinctItems(batch)
    && (forall k :: 0 <= k < |batch| ==> Before(from, AtItem(batch[k])) && Fresh(l, batch[k], target))
    && (forall id :: Eligible(l.docs, id, from, target) ==>
          InBatch(batch, id) || (|batch| == PAGE && Before(AtItem(batch[PAGE - 1]), At(l.docs, id))))
  }

  ghost predicate CoveredTo(l: Library, i: Index, at: Cursor) {
    Sequence(i) <= at.generation
    && forall id :: id in l.docs && !Before(at, At(l.docs, id)) ==> Indexed(l.docs, i, id)
  }

  ghost predicate WorkerOk(l: Library, i: Index, w: Worker) {
    match w
    case Resting => true
    case Begun(target, reset) =>
      ReadTogether(l, target, reset) && ProgressUpTo(i, target, reset) && (Sound(l.docs, i) || NeedsClear(i, reset))
    case Clearing(target, reset, done) =>
      done <= 4 && ReadTogether(l, target, reset) && ProgressUpTo(i, target, reset) && ClearedSoFar(i, done)
      && (done <= 3 ==> NeedsClear(i, reset))
    case Ready(target) => Clean(l, i, target)
    case Fetched(target, batch) => Clean(l, i, target) && PageHeld(l, StartAt(i), target, batch)
    case Committed(target, next) =>
      Clean(l, i, target)
      && if next.None? then i.progress.sequence == Some(target) else next.value.generation <= target && CoveredTo(l, i, next.value)
  }

  ghost predicate Inv(s: State) {
    LibraryOk(s.library) && IndexOk(s.library, s.index) && WorkerOk(s.library, s.index, s.worker)
  }

  // ---------- Writers ----------

  /** All the index can notice of a writer: later versions and later deletions. */
  ghost predicate Evolves(l: Library, l': Library) {
    l.sequence <= l'.sequence && l.reset <= l'.reset && l.versions <= l'.versions
    && (forall id :: id in l'.docs ==> (id in l.docs && l'.docs[id] == l.docs[id]) || l'.docs[id].generation > l.sequence)
    && (forall id :: id in l'.deletedAt ==> (id in l.deletedAt && l'.deletedAt[id] == l.deletedAt[id]) || l'.deletedAt[id] > l.sequence)
    && (forall id :: id in l.deletedAt ==> id in l'.deletedAt && l'.deletedAt[id] >= l.deletedAt[id])
  }

  lemma PutEvolves(l: Library, items: seq<Offered>)
    requires LibraryOk(l) && DistinctIds(items)
    ensures Evolves(l, Put(l, items))
  {
    hide SumBytes, VersionsOk, PutAll;
    PutGenerations(l, items);
  }

  lemma DeleteEvolves(l: Library, ids: seq<Id>)
    requires LibraryOk(l)
    ensures Evolves(l, Delete(l, ids))
  {
    hide SumBytes, VersionsOk;
  }

  lemma EvolvesSound(l: Library, l': Library, i: Index)
    requires Evolves(l, l') && ProgressUpTo(i, l.sequence, l.reset) && l.sequence >= 0
    ensures Sound(l.docs, i) ==> Sound(l'.docs, i)
  {
    hide RowsFit;
  }

  lemma EvolvesLag(l: Library, l': Library, i: Index)
    requires Evolves(l, l') && DeletedLag(l, i) && ProgressUpTo(i, l.sequence, l.reset) && l.reset <= l.sequence
    ensures DeletedLag(l', i)
  {
    forall id | id in i.records && DeletedSince(l', id, i.records[id].generation)
      ensures Under(i.progress.sequence, l'.deletedAt[id]) && Under(i.progress.reset, l'.deletedAt[id])
    {
      assert l'.deletedAt[id] > l.sequence || DeletedSince(l, id, i.records[id].generation);
    }
  }

  lemma EvolvesIndex(l: Library, l': Library, i: Index)
    requires Evolves(l, l') && IndexOk(l, i) && LibraryOk(l)
    ensures IndexOk(l', i)
  {
    hide SumBytes, VersionsOk, DeletedLag, Sound;
    EvolvesSound(l, l', i);
    EvolvesLag(l, l', i);
  }

  lemma EvolvesClean(l: Library, l': Library, i: Index, target: int)
    requires Evolves(l, l') && Clean(l, i, target) && ProgressUpTo(i, l.sequence, l.reset)
    ensures Clean(l', i, target)
  {
    EvolvesSound(l, l', i);
    hide Sound;
  }

  lemma EvolvesPage(l: Library, l': Library, from: Cursor, target: int, batch: seq<Incoming>)
    requires Evolves(l, l') && target <= l.sequence && PageHeld(l, from, target, batch)
    ensures PageHeld(l', from, target, batch)
  {
    forall k | 0 <= k < |batch| ensures Fresh(l', batch[k], target) {
      assert Fresh(l, batch[k], target);
    }
    forall id | Eligible(l'.docs, id, from, target)
      ensures InBatch(batch, id) || (|batch| == PAGE && Before(AtItem(batch[PAGE - 1]), At(l'.docs, id)))
    {
      assert Eligible(l.docs, id, from, target);
    }
  }

  lemma EvolvesTogether(l: Library, l': Library, target: int, reset: int)
    requires Evolves(l, l') && ReadTogether(l, target, reset)
    ensures ReadTogether(l', target, reset)
  {
  }

  lemma EvolvesCovered(l: Library, l': Library, i: Index, target: int, at: Cursor)
    requires Evolves(l, l') && CoveredTo(l, i, at) && at.generation <= l.sequence
    ensures CoveredTo(l', i, at)
  {
    forall id | id in l'.docs && !Before(at, At(l'.docs, id)) ensures Indexed(l'.docs, i, id) {
      assert id in l.docs && l'.docs[id] == l.docs[id];
    }
  }

  lemma EvolvesKeeps(l: Library, l': Library, i: Index, w: Worker)
    requires Evolves(l, l') && LibraryOk(l) && LibraryOk(l') && IndexOk(l, i) && WorkerOk(l, i, w)
    ensures IndexOk(l', i) && WorkerOk(l', i, w)
  {
    hide SumBytes, VersionsOk, RecordsStored, DeletedLag, Sound, Evolves, ReadTogether, CoveredTo, PageHeld;
    EvolvesIndex(l, l', i);
    match w {
      case Resting =>
      case Begun(target, reset) =>
        EvolvesSound(l, l', i);
        EvolvesTogether(l, l', target, reset);
      case Clearing(target, reset, done) => EvolvesTogether(l, l', target, reset);
      case Ready(target) => EvolvesClean(l, l', i, target);
      case Fetched(target, batch) =>
        EvolvesClean(l, l', i, target);
        EvolvesPage(l, l', StartAt(i), target, batch);
      case Committed(target, next) =>
        EvolvesClean(l, l', i, target);
        if next.Some? { EvolvesCovered(l, l', i, target, next.value); }
    }
  }

  // ---------- The worker's statements ----------

  lemma ApplyOneRows(i: Index, r: Incoming)
    requires RowsFit(i)
    ensures RowsFit(ApplyOne(i, r))
  {
    var j := ApplyOne(i, r);
    forall id | id in j.records ensures RowFits(j, id) {
      if id != r.id { assert RowFits(i, id); }
    }
  }

  lemma {:induction false} ApplyAllRows(i: Index, batch: seq<Incoming>)
    requires RowsFit(i)
    ensures RowsFit(ApplyAll(i, batch))
    decreases |batch|
  {
    hide RowsFit, ApplyOne;
    if batch != [] {
      ApplyAllRows(i, batch[..|batch| - 1]);
      ApplyOneRows(ApplyAll(i, batch[..|batch| - 1]), batch[|batch| - 1]);
    }
  }

  lemma {:induction false} ApplyAllOther(i: Index, batch: seq<Incoming>, id: Id)
    requires !InBatch(batch, id)
    ensures var j := ApplyAll(i, batch); (id in j.records <==> id in i.records) && (id in i.records ==> j.records[id] == i.records[id])
    decreases |batch|
  {
    if batch != [] {
      var n := |batch| - 1;
      forall k | 0 <= k < n ensures batch[..n][k].id != id { assert batch[k].id != id; }
      ApplyAllOther(i, batch[..n], id);
      assert batch[n].id != id;
    }
  }

  lemma {:induction false} ApplyAllItem(i: Index, batch: seq<Incoming>, k: nat)
    requires k < |batch| && DistinctItems(batch)
    ensures var j, r := ApplyAll(i, batch), batch[k];
            r.id in j.records && AsDocument(j.records[r.id]) == Document(r.path, r.markdown, r.fingerprint, r.generation)
    decreases |batch|
  {
    var n := |batch| - 1;
    if k < n { ApplyAllItem(i, batch[..n], k); }
  }

  /** After a batch each record is the batch's, or was there before. */
  lemma ApplyAllOrigin(i: Index, batch: seq<Incoming>, id: Id)
    requires DistinctItems(batch) && id in ApplyAll(i, batch).records
    ensures (id in i.records && ApplyAll(i, batch).records[id] == i.records[id])
            || exists k :: 0 <= k < |batch| && batch[k].id == id
                           && AsDocument(ApplyAll(i, batch).records[id]) == Document(batch[k].path, batch[k].markdown, batch[k].fingerprint, batch[k].generation)
  {
    if InBatch(batch, id) {
      var k :| 0 <= k < |batch| && batch[k].id == id;
      ApplyAllItem(i, batch, k);
    } else {
      ApplyAllOther(i, batch, id);
    }
  }

  lemma CommitIs(i: Index, batch: seq<Incoming>, target: int)
    ensures var j := Commit(i, batch, target);
            j.records == ApplyAll(i, batch).records && j.rows == ApplyAll(i, batch).rows && j.meta == ApplyAll(i, batch).meta
            && j.progress == if |batch| < PAGE then i.progress.(sequence := Some(target)) else i.progress
  {
    ApplyKeepsProgress(i, batch);
  }

  /** A document the batch does not carry keeps its place in the index; one it carries gets it. */
  lemma CommitIndexes(l: Library, i: Index, batch: seq<Incoming>, target: int, id: Id)
    requires id in l.docs && DistinctItems(batch)
    requires forall k :: 0 <= k < |batch| ==> Fresh(l, batch[k], target)
    requires if InBatch(batch, id) then l.docs[id].generation <= target else Indexed(l.docs, i, id)
    ensures Indexed(l.docs, Commit(i, batch, target), id)
  {
    CommitIs(i, batch, target);
    hide ApplyAll, Commit;
    if InBatch(batch, id) {
      var k :| 0 <= k < |batch| && batch[k].id == id;
      ApplyAllItem(i, batch, k);
      assert Fresh(l, batch[k], target);
    } else {
      ApplyAllOther(i, batch, id);
    }
  }

  lemma CommitCovers(l: Library, i: Index, target: int, batch: seq<Incoming>)
    requires Clean(l, i, target) && PageHeld(l, StartAt(i), target, batch)
    ensures Covered(l.docs, Commit(i, batch, target))
    ensures |batch| == PAGE ==> CoveredTo(l, Commit(i, batch, target), AtItem(batch[PAGE - 1]))
  {
    var j := Commit(i, batch, target);
    CommitIs(i, batch, target);
    hide ApplyAll, Commit, Ordered, RowsFit, DeletedSince, Fresh;
    forall id | id in l.docs && (Passed(j, At(l.docs, id)) || (|batch| == PAGE && !Before(AtItem(batch[PAGE - 1]), At(l.docs, id))))
      ensures Indexed(l.docs, j, id)
    {
      AlreadyOrInPage(l, i, target, batch, id);
      CommitIndexes(l, i, batch, target, id);
    }
    if |batch| == PAGE { assert Before(StartAt(i), AtItem(batch[PAGE - 1])); }
  }

  lemma AlreadyOrInPage(l: Library, i: Index, target: int, batch: seq<Incoming>, id: Id)
    requires Clean(l, i, target) && PageHeld(l, StartAt(i), target, batch) && id in l.docs
    requires Passed(Commit(i, batch, target), At(l.docs, id))
             || (|batch| == PAGE && !Before(AtItem(batch[PAGE - 1]), At(l.docs, id)))
    ensures if InBatch(batch, id) then l.docs[id].generation <= target else Indexed(l.docs, i, id)
  {
    CommitIs(i, batch, target);
    hide ApplyAll, Commit, Ordered, RowsFit, DeletedSince;
    if |batch| == PAGE { assert Fresh(l, batch[PAGE - 1], target); }
    hide Fresh;
    assert l.docs[id].generation <= target;
    if !InBatch(batch, id) {
      assert !Eligible(l.docs, id, StartAt(i), target) || |batch| == PAGE;
    }
  }

  lemma CommitRecords(l: Library, i: Index, target: int, batch: seq<Incoming>)
    requires Clean(l, i, target) && RecordsStored(l, i) && DistinctItems(batch)
    requires forall k :: 0 <= k < |batch| ==> Fresh(l, batch[k], target)
    ensures var j := Commit(i, batch, target);
            RecordsStored(l, j)
            && forall id :: id in j.records && DeletedSince(l, id, j.records[id].generation) ==> l.deletedAt[id] > target
  {
    var j := Commit(i, batch, target);
    CommitIs(i, batch, target);
    hide ApplyAll, Commit, Sound;
    forall id | id in j.records
      ensures (id, AsDocument(j.records[id])) in l.versions
      ensures DeletedSince(l, id, j.records[id].generation) ==> l.deletedAt[id] > target
    {
      ApplyAllOrigin(i, batch, id);
    }
  }

  lemma ApplyKeeps(l: Library, i: Index, target: int, batch: seq<Incoming>)
    requires IndexOk(l, i) && WorkerOk(l, i, Fetched(target, batch))
    ensures IndexOk(l, Commit(i, batch, target))
    ensures WorkerOk(l, Commit(i, batch, target), Committed(target, NextCursor(batch)))
  {
    hide Covered, CoveredTo, RowsFit;
    CommitClean(l, i, target, batch);
    CommitCovers(l, i, target, batch);
    CommitRecords(l, i, target, batch);
    CommitIs(i, batch, target);
    if |batch| == PAGE { assert Fresh(l, batch[PAGE - 1], target); }
    hide ApplyAll, Commit, PageHeld, Ordered, Clean, RecordsStored, DeletedLag, Fresh, DistinctItems;
    CleanIsOk(l, Commit(i, batch, target), target);
  }

  lemma CommitClean(l: Library, i: Index, target: int, batch: seq<Incoming>)
    requires RecordsStored(l, i) && Clean(l, i, target) && PageHeld(l, StartAt(i), target, batch)
    ensures Clean(l, Commit(i, batch, target), target)
  {
    CommitCovers(l, i, target, batch);
    CommitRecords(l, i, target, batch);
    ApplyAllRows(i, batch);
    CommitIs(i, batch, target);
    hide ApplyAll, Commit, Covered, PageHeld, CoveredTo, RecordsStored;
    SameRows(ApplyAll(i, batch), Commit(i, batch, target));
    hide RowsFit;
  }

  lemma CleanIsOk(l: Library, i: Index, target: int)
    requires Clean(l, i, target) && RecordsStored(l, i) && AtMost(i.progress.reset, l.reset)
    ensures IndexOk(l, i)
  {
    hide Sound;
  }

  lemma MoveCovers(l: Library, i: Index, target: int, next: Option<Cursor>)
    requires Covered(l.docs, i) && WorkerOk(l, i, Committed(target, next)) && LibraryOk(l)
    ensures Covered(l.docs, MoveCursor(i, next))
  {
    hide SumBytes, VersionsOk, RowsFit;
  }

  lemma MoveKeeps(l: Library, i: Index, target: int, next: Option<Cursor>)
    requires LibraryOk(l) && IndexOk(l, i) && WorkerOk(l, i, Committed(target, next))
    ensures IndexOk(l, MoveCursor(i, next))
  {
    hide RowsFit, Covered, CoveredTo, SumBytes, VersionsOk;
    SameRows(i, MoveCursor(i, next));
    MoveCovers(l, i, target, next);
  }

  lemma SameRows(i: Index, j: Index)
    requires j.rows == i.rows && j.meta == i.meta && j.records == i.records && RowsFit(i)
    ensures RowsFit(j)
  {
  }

  lemma FetchKeeps(l: Library, i: Index, target: int, batch: seq<Incoming>)
    requires LibraryOk(l) && Clean(l, i, target) && IsPage(l.docs, StartAt(i), target, batch)
    ensures PageHeld(l, StartAt(i), target, batch)
  {
    hide SumBytes, VersionsOk, Sound;
    forall k | 0 <= k < |batch| ensures Before(StartAt(i), AtItem(batch[k])) && Fresh(l, batch[k], target) {
      assert Eligible(l.docs, batch[k].id, StartAt(i), target);
    }
    forall j, k | 0 <= j < k < |batch| ensures batch[j].id != batch[k].id {
      assert Before(AtItem(batch[j]), AtItem(batch[k]));
    }
  }

  lemma CheckKeeps(l: Library, i: Index, target: int, reset: int)
    requires LibraryOk(l) && IndexOk(l, i) && WorkerOk(l, i, Begun(target, reset)) && !NeedsClear(i, reset)
    ensures WorkerOk(l, i, Ready(target))
  {
    hide SumBytes, VersionsOk, Sound, RecordsStored;
  }

  /** The first three statements leave the progress alone, so the clear stays due. */
  lemma ClearTables(l: Library, i: Index, target: int, reset: int, done: nat)
    requires LibraryOk(l) && IndexOk(l, i) && WorkerOk(l, i, Clearing(target, reset, done)) && done <= 2
    ensures var j := ClearStatement(i, done, reset); IndexOk(l, j) && WorkerOk(l, j, Clearing(target, reset, done + 1))
  {
    hide LibraryOk, Sound, RecordsStored, DeletedLag;
    FewerRecords(l, i, ClearStatement(i, done, reset));
  }

  lemma FewerRecords(l: Library, i: Index, j: Index)
    requires RecordsStored(l, i) && DeletedLag(l, i) && j.progress == i.progress && (j.records == i.records || j.records == map[])
    ensures RecordsStored(l, j) && DeletedLag(l, j)
  {
  }

  /** With no records and no progress past the start, nothing can be wrong. */
  lemma EmptyIsSound(l: Library, i: Index)
    requires LibraryOk(l) && i.rows == map[] && i.meta == map[] && i.records == map[]
    requires i.progress.sequence.None? && i.progress.cursor.None? && AtMost(i.progress.reset, l.reset)
    ensures Sound(l.docs, i) && IndexOk(l, i)
  {
    hide SumBytes, VersionsOk;
  }

  lemma ClearKeeps(l: Library, i: Index, target: int, reset: int, done: nat)
    requires LibraryOk(l) && IndexOk(l, i) && WorkerOk(l, i, Clearing(target, reset, done))
    ensures var j := ClearStatement(i, done, reset);
            IndexOk(l, j) && WorkerOk(l, j, if done == 4 then Ready(target) else Clearing(target, reset, done + 1))
  {
    hide Sound, IndexOk, LibraryOk;
    if done <= 2 {
      ClearTables(l, i, target, reset, done);
    } else {
      EmptyIsSound(l, ClearStatement(i, done, reset));
    }
  }

  lemma NextKeeps(s: State, e: Event)
    requires Inv(s) && Enabled(s, e)
    ensures Inv(Next(s, e))
  {
    hide LibraryOk, IndexOk, PageHeld, Clean, Put, Delete;
    match e {
      case Upload(items) =>
        PutKeeps(s.library, items);
        PutEvolves(s.library, items);
        EvolvesKeeps(s.library, Put(s.library, items), s.index, s.worker);
      case Removal(ids) =>
        DeleteKeeps(s.library, ids);
        DeleteEvolves(s.library, ids);
        EvolvesKeeps(s.library, Delete(s.library, ids), s.index, s.worker);
      case ReadTarget => ReadKeeps(s.library, s.index);
      case Check =>
        if !NeedsClear(s.index, s.worker.reset) { CheckKeeps(s.library, s.index, s.worker.target, s.worker.reset); }
      case ClearNext => ClearKeeps(s.library, s.index, s.worker.target, s.worker.reset, s.worker.done);
      case Fetch(batch) => FetchKeeps(s.library, s.index, s.worker.target, batch);
      case Apply => ApplyKeeps(s.library, s.index, s.worker.target, s.worker.batch);
      case Move => MoveKeeps(s.library, s.index, s.worker.target, s.worker.next);
      case Crash =>
      case Wipe => WipeKeeps(s.library);
    }
  }

  lemma ReadKeeps(l: Library, i: Index)
    requires LibraryOk(l) && IndexOk(l, i)
    ensures WorkerOk(l, i, Begun(l.sequence, l.reset))
  {
    hide SumBytes, VersionsOk, Sound;
  }

  lemma WipeKeeps(l: Library)
    requires LibraryOk(l)
    ensures IndexOk(l, EMPTY_INDEX) && Sound(l.docs, EMPTY_INDEX) && forall t, r :: t >= 0 && r >= 0 ==> ProgressUpTo(EMPTY_INDEX, t, r)
  {
    hide SumBytes, VersionsOk;
  }

  // ---------- Every run ----------

  const START := State(EMPTY, EMPTY_INDEX, Resting)

  ghost predicate Run(s: State, events: seq<Event>)
    decreases |events|
  {
    events == [] || (Enabled(s, events[0]) && Run(Next(s, events[0]), events[1..]))
  }

  ghost function After(s: State, events: seq<Event>): State
    requires Run(s, events)
    decreases |events|
  {
    if events == [] then s else After(Next(s, events[0]), events[1..])
  }

  lemma StartIsOk()
    ensures Inv(START)
  {
    EmptyIsOk();
    WipeKeeps(EMPTY);
    hide LibraryOk, IndexOk;
  }

  /** The agreement holds after any uploads, deletions, statements, crashes and rebuilds, in any order. */
  lemma {:induction false} AgreementOverRuns(s: State, events: seq<Event>)
    requires Inv(s) && Run(s, events)
    ensures Inv(After(s, events))
    decreases |events|
  {
    hide Inv, Next, Enabled;
    if events != [] {
      NextKeeps(s, events[0]);
      AgreementOverRuns(Next(s, events[0]), events[1..]);
    }
  }

  predicate Agrees(r: Record, d: Document) {
    r.path == d.path && r.markdown == d.markdown && r.fingerprint == d.fingerprint && r.generation == d.generation
  }

  /** The records are the documents, each under exactly one search row. */
  ghost predicate Mirrors(l: Library, i: Index) {
    i.records.Keys == l.docs.Keys && (forall id :: id in l.docs ==> Agrees(i.records[id], l.docs[id])) && RowsFit(i)
  }

  /** From an empty library and an empty index: the agreement holds whatever happens, so whenever
      the index stands at the library's sequence it mirrors it. */
  lemma AgreementFromStart(events: seq<Event>)
    requires Run(START, events)
    ensures var s := After(START, events); Inv(s) && (CaughtUp(s.library, s.index) ==> Mirrors(s.library, s.index))
  {
    hide Inv, Run, Mirrors;
    StartIsOk();
    AgreementOverRuns(START, events);
    var s := After(START, events);
    if CaughtUp(s.library, s.index) { CaughtUpMeansEqual(s); }
  }

  /** An index at the library's own sequence holds the library's documents and nothing else,
      each under exactly one search row. */
  lemma CaughtUpMeansEqual(s: State)
    requires Inv(s) && s.index.progress.sequence == Some(s.library.sequence)
    ensures Mirrors(s.library, s.index)
  {
    var l, i := s.library, s.index;
    hide SumBytes, WorkerOk, RowsFit;
    forall id | id in i.records ensures id in l.docs {
      assert VersionOk(l, (id, AsDocument(i.records[id])));
      assert !DeletedSince(l, id, i.records[id].generation);
    }
    forall id | id in l.docs ensures Indexed(l.docs, i, id) {
      assert Passed(i, At(l.docs, id));
    }
  }

  /** What a search row shows of a document. */
  predicate Shows(row: Row, r: Record) { r.markdown == row.markdown && r.fingerprint == row.fingerprint }

  /** A query that passes the guard joins every hit to its record, and shows no version that was
      deleted before the guard read the reset sequence, wherever the worker stands. */
  lemma GuardedQueriesShowNothingDeleted(s: State, hit: nat)
    requires Inv(s) && s.index.progress.sequence.Some? && s.index.progress.sequence.value >= s.library.reset
    requires hit in s.index.rows
    ensures s.index.rows[hit].id in s.index.records
    ensures var id := s.index.rows[hit].id; var r := s.index.records[id];
            r.rowid == hit && Shows(s.index.rows[hit], r)
            && (id, Document(r.path, r.markdown, r.fingerprint, r.generation)) in s.library.versions
            && !DeletedSince(s.library, id, r.generation)
  {
    var i := s.index;
    hide SumBytes, WorkerOk, VersionsOk, Covered;
    var id := i.rows[hit].id;
    assert !NeedsClear(i, s.library.reset);
    assert RowFits(i, id);
  }

  /** The same, after a deletion that lands when the guard has already been passed: what was shown
      then is what the library held at that moment or an older version since replaced. */
  lemma ShownVersionsWereLive(s: State, id: Id)
    requires Inv(s) && s.index.progress.sequence.Some? && s.index.progress.sequence.value >= s.library.reset
    requires id in s.index.records
    ensures id in s.library.docs && s.index.records[id].generation <= s.library.docs[id].generation
    ensures s.index.records[id].generation == s.library.docs[id].generation ==> Agrees(s.index.records[id], s.library.docs[id])
  {
    var l, r := s.library, s.index.records[id];
    hide SumBytes, WorkerOk, Sound;
    assert VersionOk(l, (id, AsDocument(r)));
    assert !DeletedSince(l, id, r.generation);
  }

  // ---------- A step without writers, and convergence ----------

  ghost function StepEvents(s: State, batch: seq<Incoming>): seq<Event> {
    if s.index.progress.sequence == Some(s.library.sequence) then [ReadTarget] + [Check]
    else if NeedsClear(s.index, s.library.reset) then
      [ReadTarget] + ([Check] + ([ClearNext, ClearNext, ClearNext, ClearNext, ClearNext] + [Fetch(batch), Apply, Move]))
    else [ReadTarget] + ([Check] + [Fetch(batch), Apply, Move])
  }

  ghost function StepBase(s: State): Index {
    if NeedsClear(s.index, s.library.reset) then Cleared(s.library.reset) else s.index
  }

  lemma RunOne(s: State, e: Event, rest: seq<Event>)
    requires Enabled(s, e) && Run(Next(s, e), rest)
    ensures Run(s, [e] + rest) && After(s, [e] + rest) == After(Next(s, e), rest)
  {
    assert ([e] + rest)[1..] == rest;
  }

  /** The statements of one uninterrupted step, run one by one, are the whole step. */
  lemma StepIsItsStatements(s: State, batch: seq<Incoming>)
    requires s.worker.Resting? && IsPage(s.library.docs, StartAt(StepBase(s)), s.library.sequence, batch)
    ensures Run(s, StepEvents(s, batch))
    ensures var s' := After(s, StepEvents(s, batch));
            s'.worker.Resting? && s'.library == s.library
            && IsStep(s.index, s.library.sequence, s.library.reset, s.library.docs, s'.index,
                      s.index.progress.sequence != Some(s.library.sequence) && batch != [])
            && (s.index.progress.sequence != Some(s.library.sequence) ==>
                  s'.index == MoveCursor(Commit(StepBase(s), batch, s.library.sequence), NextCursor(batch)))
  {
    var s1 := Next(s, ReadTarget);
    var s2 := Next(s1, Check);
    hide Run, After, IsPage, Commit;
    if s.index.progress.sequence == Some(s.library.sequence) {
      NothingRuns(s2);
      assert [Check] + [] == [Check];
      RunOne(s1, Check, []);
      RunOne(s, ReadTarget, [Check]);
    } else {
      PageRuns(s.(index := StepBase(s), worker := Ready(s.library.sequence)), batch);
      if NeedsClear(s.index, s.library.reset) {
        ClearRuns(s2, [Fetch(batch), Apply, Move]);
        RunOne(s1, Check, [ClearNext, ClearNext, ClearNext, ClearNext, ClearNext] + [Fetch(batch), Apply, Move]);
        RunOne(s, ReadTarget, [Check] + ([ClearNext, ClearNext, ClearNext, ClearNext, ClearNext] + [Fetch(batch), Apply, Move]));
      } else {
        RunOne(s1, Check, [Fetch(batch), Apply, Move]);
        RunOne(s, ReadTarget, [Check] + [Fetch(batch), Apply, Move]);
      }
    }
  }

  lemma NothingRuns(s: State)
    ensures Run(s, []) && After(s, []) == s
  {
  }

  lemma PageRuns(s: State, batch: seq<Incoming>)
    requires s.worker.Ready? && IsPage(s.library.docs, StartAt(s.index), s.worker.target, batch)
    ensures Run(s, [Fetch(batch), Apply, Move])
    ensures After(s, [Fetch(batch), Apply, Move])
         == State(s.library, MoveCursor(Commit(s.index, batch, s.worker.target), NextCursor(batch)), Resting)
  {
    hide IsPage;
    var s1 := Next(s, Fetch(batch));
    var s2 := Next(s1, Apply);
    NothingRuns(Next(s2, Move));
    assert [Move] + [] == [Move] && [Apply] + [Move] == [Apply, Move];
    assert [Fetch(batch)] + [Apply, Move] == [Fetch(batch), Apply, Move];
    hide Run, After;
    RunOne(s2, Move, []);
    RunOne(s1, Apply, [Move]);
    RunOne(s, Fetch(batch), [Apply, Move]);
  }

  lemma ClearRuns(s: State, rest: seq<Event>)
    requires s.worker.Clearing? && s.worker.done == 0
    requires var ready := s.(index := Cleared(s.worker.reset), worker := Ready(s.worker.target)); Run(ready, rest)
    ensures Run(s, [ClearNext, ClearNext, ClearNext, ClearNext, ClearNext] + rest)
    ensures After(s, [ClearNext, ClearNext, ClearNext, ClearNext, ClearNext] + rest)
         == After(s.(index := Cleared(s.worker.reset), worker := Ready(s.worker.target)), rest)
  {
    hide Run, After;
    var s1 := Next(s, ClearNext);
    var s2 := Next(s1, ClearNext);
    var s3 := Next(s2, ClearNext);
    var s4 := Next(s3, ClearNext);
    assert Next(s4, ClearNext) == s.(index := Cleared(s.worker.reset), worker := Ready(s.worker.target));
    RunOne(s4, ClearNext, rest);
    RunOne(s3, ClearNext, [ClearNext] + rest);
    RunOne(s2, ClearNext, [ClearNext] + ([ClearNext] + rest));
    RunOne(s1, ClearNext, [ClearNext] + ([ClearNext] + ([ClearNext] + rest)));
    RunOne(s, ClearNext, [ClearNext] + ([ClearNext] + ([ClearNext] + ([ClearNext] + rest))));
    assert [ClearNext, ClearNext, ClearNext, ClearNext, ClearNext] + rest
        == [ClearNext] + ([ClearNext] + ([ClearNext] + ([ClearNext] + ([ClearNext] + rest))));
  }

  /** The documents the index has not reached. */
  ghost function Left(docs: map<Id, Document>, i: Index): set<Id> {
    set id | id in docs && Before(StartAt(i), At(docs, id))
  }

  predicate CaughtUp(l: Library, i: Index) { i.progress.sequence == Some(l.sequence) }

  lemma {:induction false} DistinctCount(batch: seq<Incoming>)
    requires DistinctItems(batch)
    ensures |set k | 0 <= k < |batch| :: batch[k].id| == |batch|
    decreases |batch|
  {
    if batch != [] {
      var n := |batch| - 1;
      DistinctCount(batch[..n]);
      assert (set k | 0 <= k < |batch| :: batch[k].id) == (set k | 0 <= k < n :: batch[..n][k].id) + {batch[n].id};
    }
  }

  /** A full page takes exactly its documents off what is left. */
  lemma PageShrinks(l: Library, i: Index, batch: seq<Incoming>)
    requires LibraryOk(l) && IsPage(l.docs, StartAt(i), l.sequence, batch) && |batch| == PAGE
    ensures |Left(l.docs, MoveCursor(Commit(i, batch, l.sequence), NextCursor(batch)))| == |Left(l.docs, i)| - PAGE
  {
    var j := MoveCursor(Commit(i, batch, l.sequence), NextCursor(batch));
    CommitIs(i, batch, l.sequence);
    hide SumBytes, VersionsOk, Commit;
    var ids := set k | 0 <= k < |batch| :: batch[k].id;
    forall a, b | 0 <= a < b < |batch| ensures batch[a].id != batch[b].id {
      assert Before(AtItem(batch[a]), AtItem(batch[b]));
    }
    DistinctCount(batch);
    var last := AtItem(batch[PAGE - 1]);
    assert Eligible(l.docs, batch[PAGE - 1].id, StartAt(i), l.sequence);
    assert StartAt(j) == last;
    LeftSplits(l, i, j, batch, ids);
  }

  lemma LeftSplits(l: Library, i: Index, j: Index, batch: seq<Incoming>, ids: set<Id>)
    requires LibraryOk(l) && IsPage(l.docs, StartAt(i), l.sequence, batch) && |batch| == PAGE
    requires StartAt(j) == AtItem(batch[PAGE - 1]) && ids == set k | 0 <= k < |batch| :: batch[k].id
    ensures Left(l.docs, i) == Left(l.docs, j) + ids && Left(l.docs, j) !! ids
  {
    hide SumBytes, VersionsOk;
    assert Before(StartAt(i), StartAt(j)) by { assert Eligible(l.docs, batch[PAGE - 1].id, StartAt(i), l.sequence); }
    forall id | id in ids ensures id in Left(l.docs, i) && id !in Left(l.docs, j) {
      var k :| 0 <= k < |batch| && batch[k].id == id;
      assert Eligible(l.docs, id, StartAt(i), l.sequence);
      assert k < PAGE - 1 ==> Before(AtItem(batch[k]), AtItem(batch[PAGE - 1]));
    }
    forall id | id in Left(l.docs, i) && id !in ids ensures id in Left(l.docs, j) {
      assert Eligible(l.docs, id, StartAt(i), l.sequence);
      assert !InBatch(batch, id);
    }
  }

  /** Each step catches up or takes a full page; a step that did nothing has caught up. */
  lemma StepProgresses(l: Library, i: Index, j: Index, worked: bool)
    requires LibraryOk(l) && IsStep(i, l.sequence, l.reset, l.docs, j, worked)
    ensures !NeedsClear(i, l.reset) ==> CaughtUp(l, j) || |Left(l.docs, j)| == |Left(l.docs, i)| - PAGE
    ensures CaughtUp(l, j) || |Left(l.docs, j)| <= |l.docs| - PAGE
    ensures !NeedsClear(j, l.reset) || CaughtUp(l, j)
    ensures !worked ==> CaughtUp(l, j)
  {
    if !CaughtUp(l, i) {
      var c := if NeedsClear(i, l.reset) then Cleared(l.reset) else i;
      var batch :| IsPage(l.docs, StartAt(c), l.sequence, batch)
                   && j == MoveCursor(Commit(c, batch, l.sequence), NextCursor(batch)) && worked == (batch != []);
      CommitIs(c, batch, l.sequence);
      hide LibraryOk, Commit, IsPage;
      LeftBound(l.docs, c);
      if |batch| == PAGE { PageShrinks(l, c, batch); }
      hide Left;
    }
  }

  lemma LeftBound(docs: map<Id, Document>, i: Index)
    ensures |Left(docs, i)| <= |docs|
  {
    SubsetCount(Left(docs, i), docs.Keys);
  }

  lemma {:induction false} SubsetCount(a: set<Id>, b: set<Id>)
    requires a <= b
    ensures |a| <= |b|
    decreases |a|
  {
    if a != {} {
      var x :| x in a;
      SubsetCount(a - {x}, b - {x});
    }
  }

  /** One index after another, each a step on from the last, while nobody writes. */
  ghost predicate Steps(l: Library, chain: seq<Index>) {
    forall k :: 0 < k < |chain| ==> IsStep(chain[k - 1], l.sequence, l.reset, l.docs, chain[k], true)
                                    || IsStep(chain[k - 1], l.sequence, l.reset, l.docs, chain[k], false)
  }

  lemma {:induction false} LeftAfter(l: Library, chain: seq<Index>)
    requires LibraryOk(l) && Steps(l, chain) && |chain| > 1
    ensures CaughtUp(l, chain[|chain| - 1])
            || (!NeedsClear(chain[|chain| - 1], l.reset) && |Left(l.docs, chain[|chain| - 1])| <= |l.docs| - PAGE * (|chain| - 1))
    decreases |chain|
  {
    hide LibraryOk, IsStep, Left, NeedsClear, CaughtUp;
    var n := |chain| - 1;
    assert Steps(l, chain[..n]);
    var worked :| IsStep(chain[n - 1], l.sequence, l.reset, l.docs, chain[n], worked);
    StepProgresses(l, chain[n - 1], chain[n], worked);
    if n > 1 {
      LeftAfter(l, chain[..n]);
      assert chain[..n][n - 1] == chain[n - 1];
      if CaughtUp(l, chain[n - 1]) { StaysCaughtUp(l, chain[n - 1], chain[n], worked); }
    }
  }

  lemma StaysCaughtUp(l: Library, i: Index, j: Index, worked: bool)
    requires IsStep(i, l.sequence, l.reset, l.docs, j, worked) && CaughtUp(l, i)
    ensures CaughtUp(l, j)
  {
  }

  /** An uninterrupted step keeps the agreement, being made of statements that do. */
  lemma StepKeeps(l: Library, i: Index, j: Index, worked: bool)
    requires Inv(State(l, i, Resting)) && IsStep(i, l.sequence, l.reset, l.docs, j, worked)
    ensures Inv(State(l, j, Resting))
  {
    hide Inv, Run, After, IsPage, Commit, NeedsClear;
    if !CaughtUp(l, i) {
      var s := State(l, i, Resting);
      var batch :| IsPage(l.docs, StartAt(StepBase(s)), l.sequence, batch)
                   && j == MoveCursor(Commit(StepBase(s), batch, l.sequence), NextCursor(batch)) && worked == (batch != []);
      StepIsItsStatements(s, batch);
      AgreementOverRuns(s, StepEvents(s, batch));
    }
  }

  lemma {:induction false} ChainKeeps(l: Library, chain: seq<Index>)
    requires Steps(l, chain) && |chain| > 0 && Inv(State(l, chain[0], Resting))
    ensures Inv(State(l, chain[|chain| - 1], Resting))
    decreases |chain|
  {
    hide Inv, IsStep;
    var n := |chain| - 1;
    if n > 0 {
      assert Steps(l, chain[..n]);
      ChainKeeps(l, chain[..n]);
      var worked :| IsStep(chain[n - 1], l.sequence, l.reset, l.docs, chain[n], worked);
      StepKeeps(l, chain[n - 1], chain[n], worked);
    }
  }

  /** With no writers, enough steps to page through the documents, one more than the full pages
      there are, end with the documents mirrored, wherever an earlier run had left the index. */
  lemma StepsCatchUp(l: Library, chain: seq<Index>)
    requires Steps(l, chain) && |chain| > 0 && PAGE * (|chain| - 1) > |l.docs| && Inv(State(l, chain[0], Resting))
    ensures CaughtUp(l, chain[|chain| - 1]) && Mirrors(l, chain[|chain| - 1])
  {
    hide LibraryOk, IndexOk, Steps, Mirrors;
    LeftAfter(l, chain);
    ChainKeeps(l, chain);
    CaughtUpMeansEqual(State(l, chain[|chain| - 1], Resting));
  }
}

/** The server's side of an archive export: chunks cut from a frozen community.

  The cursor is where the next chunk starts; a chunk depends on nothing but the frozen rows
  and its start, so the one before can be cut again when its response was lost.
 */
module ArchiveExport {
  import opened KnowledgeLibrary
  import opened ArchiveFormat

  const CHUNK := 2 * 1024 * 1024
  const CHUNK_RECORDS := 64
  const RECORD_SLACK := 1024
  const HOUR := 3600 * SECOND

  /** What the export reads, unchanging while the community is locked. */
  datatype Snapshot = Snapshot(community: string, name: string, scope: string, sequence: int, docs: map<Id, Document>)

  /** Bytes of an encoded line, and of a row as the database renders it. */
  datatype Sizes = Sizes(width: Width, data: Width)

  /** Key 0, no document's id, stands for the empty key. */
  datatype Position = Position(section: nat, key: Id, chain: Chain, records: nat)

  datatype Chunk = Chunk(body: seq<Line>, after: Position)

  const ORIGIN := Position(0, 0, Origin, 0)

  // ---------- The next document ----------

  ghost predicate IsNext(docs: map<Id, Document>, key: Id, id: Id) {
    id in docs && key < id && forall d :: d in docs && key < d ==> id <= d
  }

  ghost predicate NoneAfter(docs: map<Id, Document>, key: Id) { forall d :: d in docs ==> d <= key }

  ghost function NextDoc(docs: map<Id, Document>, key: Id): (next: Option<Id>)
    ensures if next.Some? then IsNext(docs, key, next.value) else NoneAfter(docs, key)
  {
    NextExists(docs, key);
    if NoneAfter(docs, key) then None
    else
      var id :| IsNext(docs, key, id);
      Some(id)
  }

  lemma {:induction false} NextExists(docs: map<Id, Document>, key: Id)
    ensures NoneAfter(docs, key) || exists id :: IsNext(docs, key, id)
    decreases |docs|
  {
    if docs != map[] {
      var d :| d in docs;
      var rest := docs - {d};
      assert rest.Keys == docs.Keys - {d};
      NextExists(rest, key);
      if NoneAfter(rest, key) {
        assert forall e :: e in docs ==> e == d || e in rest;
        assert key < d ==> IsNext(docs, key, d);
      } else {
        var id :| IsNext(rest, key, id);
        assert forall e :: e in docs ==> e == d || e in rest;
        assert IsNext(docs, key, if key < d < id then d else id);
      }
    }
  }

  /** The row query: the next document by id, one at a time. */
  method QueryNext(docs: map<Id, Document>, key: Id) returns (next: Option<Id>)
    ensures next == NextDoc(docs, key)
  {
    next := None;
    var rest := docs.Keys;
    while rest != {}
      invariant rest <= docs.Keys
      invariant next.Some? ==> next.value in docs && key < next.value
      invariant forall d :: d in docs && d !in rest && key < d ==> next.Some? && next.value <= d
      decreases rest
    {
      var d :| d in rest;
      if key < d && (next.None? || d < next.value) { next := Some(d); }
      rest := rest - {d};
    }
    if next.Some? { assert IsNext(docs, key, next.value); }
  }

  // ---------- One chunk ----------

  function EntryOf(id: Id, d: Document): Line { Doc(id, d.path, d.markdown, d.fingerprint) }

  function ManifestOf(s: Snapshot): Line { Manifest(FORMAT, s.community, s.name, s.scope, s.sequence) }

  /** A row the exporter takes. */
  predicate Exportable(line: Line, sizes: Sizes) { sizes.data(line) <= MAX_RECORD - RECORD_SLACK }

  datatype Filled = Filled(at: Position, body: seq<Line>) | Oversize

  predicate Open(at: Position, body: seq<Line>, n: nat, sizes: Sizes) {
    at.section <= 1 && Size(body, sizes.width) < CHUNK && n < CHUNK_RECORDS
  }

  /** Documents one after another until the chunk is full or there are no more. */
  ghost function Fill(s: Snapshot, at: Position, body: seq<Line>, n: nat, sizes: Sizes): Filled
    decreases if n < CHUNK_RECORDS then CHUNK_RECORDS - n else 0, 2 - at.section
  {
    if !Open(at, body, n, sizes) then Filled(at, body)
    else
      match NextDoc(s.docs, at.key)
      case None => Fill(s, at.(section := at.section + 1, key := 0), body, n, sizes)
      case Some(id) =>
        var line := EntryOf(id, s.docs[id]);
        if !Exportable(line, sizes) then Oversize
        else Fill(s, at.(key := id, records := at.records + 1), body + [line], n + 1, sizes)
  }

  function Opening(s: Snapshot, at: Position): seq<Line> { if at.section == 0 then [ManifestOf(s)] else [] }

  function Opened(at: Position): Position { if at.section == 0 then at.(section := 1) else at }

  /** The body of a chunk, closed by the end record when the documents are exhausted. */
  function Closed(at: Position, body: seq<Line>): seq<Line> {
    if at.section > 1 then body + [Finish(at.records, at.chain)] else body
  }

  ghost function Build(s: Snapshot, at: Position, sizes: Sizes): Option<Chunk> {
    match Fill(s, Opened(at), Opening(s, at), 0, sizes)
    case Oversize => None
    case Filled(to, body) =>
      var all := Closed(to, body);
      if Size(all, sizes.width) > MAX_CHUNK then None else Some(Chunk(all, to.(chain := Link(at.chain, all))))
  }

  // ---------- The session ----------

  datatype Phase = Preview | Locked | Downloaded | Verified

  datatype Session = Session(ticket: nat, phase: Phase, archive: bool, expires: int, next: nat, at: Position, previous: Position)

  datatype Response = Response(body: seq<Line>, next: nat, chain: Chain, records: nat, done: bool)

  datatype Refused = NotLocked | WrongIndex | AlreadyComplete | Oversized | SnapshotChanged

  datatype Answer = Answered(response: Response) | No(why: Refused)

  predicate Exporting(x: Session, ticket: nat, now: int) {
    x.ticket == ticket && x.archive && now <= x.expires && x.phase != Preview
  }

  predicate Replays(x: Session, index: nat) { x.next > 0 && index == x.next - 1 }

  function ReplyFor(c: Chunk, index: nat): Response {
    Response(c.body, index + 1, c.after.chain, c.after.records, c.after.section > 1)
  }

  ghost function Serve(s: Snapshot, x: Session, ticket: nat, index: nat, now: int, sizes: Sizes): Answer {
    if !Exporting(x, ticket, now) then No(NotLocked)
    else if index != x.next && !Replays(x, index) then No(WrongIndex)
    else if !Replays(x, index) && x.phase != Locked then No(AlreadyComplete)
    else
      match Build(s, if Replays(x, index) then x.previous else x.at, sizes)
      case None => No(Oversized)
      case Some(c) =>
        if Replays(x, index) && c.after.chain != x.at.chain then No(SnapshotChanged)
        else Answered(ReplyFor(c, index))
  }

  /** A new chunk moves the session on; a replay and a refusal leave it alone. */
  ghost function Served(s: Snapshot, x: Session, ticket: nat, index: nat, now: int, sizes: Sizes): Session {
    if Serve(s, x, ticket, index, now, sizes).No? || Replays(x, index) then x
    else
      var c := Build(s, x.at, sizes).value;
      x.(at := c.after, previous := x.at, next := x.next + 1, expires := now + HOUR,
         phase := if c.after.section > 1 then Downloaded else Locked)
  }

  class ArchiveSession {
    const ticket: nat
    const archive: bool
    var phase: Phase
    var expires: int
    var next: nat
    var at: Position
    var previous: Position

    ghost function Abs(): Session
      reads this
    {
      Session(ticket, phase, archive, expires, next, at, previous)
    }

    constructor (t: nat, a: bool, now: int)
      ensures Abs() == Session(t, Locked, a, now + HOUR, 0, ORIGIN, ORIGIN)
    {
      ticket, archive, phase, expires, next, at, previous := t, a, Locked, now + HOUR, 0, ORIGIN, ORIGIN;
    }

    /** Commit the cursor, then answer: a response that gets lost can be cut again. */
    method BuildArchiveChunk(s: Snapshot, t: nat, index: nat, now: int, sizes: Sizes) returns (answer: Answer)
      modifies this
      ensures answer == Serve(s, old(Abs()), t, index, now, sizes)
      ensures Abs() == Served(s, old(Abs()), t, index, now, sizes)
    {
      hide Fill;
      if ticket != t || !archive || now > expires || phase == Preview { return No(NotLocked); }
      var replay := next > 0 && index == next - 1;
      if index != next && !replay { return No(WrongIndex); }
      if !replay && phase != Locked { return No(AlreadyComplete); }
      var start := if replay then previous else at;
      var chunk := CutChunk(s, start, sizes);
      if chunk.None? { return No(Oversized); }
      var c := chunk.value;
      answer := Answered(ReplyFor(c, index));
      if replay {
        if at.chain != c.after.chain { return No(SnapshotChanged); }
        return;
      }
      at, previous, next := c.after, start, index + 1;
      phase := if c.after.section > 1 then Downloaded else Locked;
      expires := now + HOUR;
    }
  }

  /** One turn of the loop: past the last document the section ends, else the next one goes in. */
  lemma FillNext(s: Snapshot, at: Position, body: seq<Line>, n: nat, sizes: Sizes)
    ensures !Open(at, body, n, sizes) ==> Fill(s, at, body, n, sizes) == Filled(at, body)
    ensures Open(at, body, n, sizes) ==>
              Fill(s, at, body, n, sizes)
              == match NextDoc(s.docs, at.key)
                 case None => Fill(s, at.(section := at.section + 1, key := 0), body, n, sizes)
                 case Some(id) =>
                   var line := EntryOf(id, s.docs[id]);
                   if !Exportable(line, sizes) then Oversize
                   else Fill(s, at.(key := id, records := at.records + 1), body + [line], n + 1, sizes)
  {
  }

  lemma SizeMore(body: seq<Line>, line: Line, width: Width)
    ensures Size(body + [line], width) == Size(body, width) + width(line) + 1
  {
    assert (body + [line])[..|body|] == body;
  }

  lemma SizeNothing(width: Width)
    ensures Size([], width) == 0
  {
  }

  method CutChunk(s: Snapshot, start: Position, sizes: Sizes) returns (chunk: Option<Chunk>)
    ensures chunk == Build(s, start, sizes)
  {
    hide Fill, Size, Exportable;
    var at := start;
    var body: seq<Line> := [];
    var size := 0;
    SizeNothing(sizes.width);
    if at.section == 0 {
      SizeMore([], ManifestOf(s), sizes.width);
      assert [] + [ManifestOf(s)] == [ManifestOf(s)];
      body, size := [ManifestOf(s)], sizes.width(ManifestOf(s)) + 1;
      at := at.(section := 1);
    }
    assert body == Opening(s, start) && at == Opened(start);
    var n := 0;
    while at.section <= 1 && size < CHUNK && n < CHUNK_RECORDS
      invariant 0 <= n <= CHUNK_RECORDS && size == Size(body, sizes.width) && at.chain == start.chain
      invariant Fill(s, at, body, n, sizes) == Fill(s, Opened(start), Opening(s, start), 0, sizes)
      decreases CHUNK_RECORDS - n, 2 - at.section
    {
      FillNext(s, at, body, n, sizes);
      var next := QueryNext(s.docs, at.key);
      if next.None? {
        at := at.(section := at.section + 1, key := 0);
      } else {
        var line := EntryOf(next.value, s.docs[next.value]);
        if !Exportable(line, sizes) { return None; }
        SizeMore(body, line, sizes.width);
        body, size := body + [line], size + sizes.width(line) + 1;
        at := at.(key := next.value, records := at.records + 1);
        n := n + 1;
      }
    }
    FillNext(s, at, body, n, sizes);
    if at.section > 1 {
      var line := Finish(at.records, at.chain);
      SizeMore(body, line, sizes.width);
      body, size := body + [line], size + sizes.width(line) + 1;
    }
    if size > MAX_CHUNK { return None; }
    chunk := Some(Chunk(body, at.(chain := Link(start.chain, body))));
  }

  // ---------- The whole export ----------

  /** The cursor after `k` chunks, if none of them failed and the export was not over before. */
  ghost function Trail(s: Snapshot, k: nat, sizes: Sizes): Option<Position> {
    if k == 0 then Some(ORIGIN)
    else
      match Trail(s, k - 1, sizes)
      case None => None
      case Some(p) =>
        if p.section > 1 then None
        else match Build(s, p, sizes) case None => None case Some(c) => Some(c.after)
  }

  ghost function Frames(s: Snapshot, k: nat, sizes: Sizes): seq<seq<Line>>
    requires Trail(s, k, sizes).Some?
  {
    if k == 0 then [] else Frames(s, k - 1, sizes) + [Build(s, Trail(s, k - 1, sizes).value, sizes).value.body]
  }

  lemma {:induction false} TrailChain(s: Snapshot, k: nat, sizes: Sizes)
    requires Trail(s, k, sizes).Some?
    ensures Trail(s, k, sizes).value.chain == ChainOf(Frames(s, k, sizes)) && |Frames(s, k, sizes)| == k
  {
    hide Build;
    if k > 0 {
      TrailChain(s, k - 1, sizes);
      var f := Frames(s, k, sizes);
      assert f[..k - 1] == Frames(s, k - 1, sizes);
      BuildChain(s, Trail(s, k - 1, sizes).value, sizes);
    }
  }

  lemma BuildChain(s: Snapshot, p: Position, sizes: Sizes)
    requires Build(s, p, sizes).Some?
    ensures Build(s, p, sizes).value.after.chain == Link(p.chain, Build(s, p, sizes).value.body)
  {
    hide Fill;
  }

  /** Entries of exactly the documents up to `key`, once each, in id order. */
  ghost predicate Listing(docs: map<Id, Document>, key: Id, entries: seq<Line>) {
    (forall k :: 0 <= k < |entries| ==>
       entries[k].Doc? && entries[k].id in docs && entries[k].id <= key && entries[k] == EntryOf(entries[k].id, docs[entries[k].id]))
    && (forall j, k :: 0 <= j < k < |entries| ==> entries[j].id < entries[k].id)
    && (forall id :: id in docs && id <= key ==> Listed(entries, id))
  }

  ghost predicate Listed(entries: seq<Line>, id: Id) {
    exists k :: 0 <= k < |entries| && entries[k].Doc? && entries[k].id == id
  }

  function Reach(at: Position): Id { if at.section > 1 then MAX_ID else at.key }

  lemma ListingNext(docs: map<Id, Document>, key: Id, entries: seq<Line>, id: Id)
    requires Listing(docs, key, entries) && IsNext(docs, key, id)
    ensures Listing(docs, id, entries + [EntryOf(id, docs[id])])
  {
    var more := entries + [EntryOf(id, docs[id])];
    assert forall k :: 0 <= k < |entries| ==> more[k] == entries[k];
    assert more[|entries|].id == id;
    forall d | d in docs && d <= id ensures Listed(more, d) {
      if d != id {
        assert Listed(entries, d);
        var k :| 0 <= k < |entries| && entries[k].Doc? && entries[k].id == d;
        assert more[k].id == d;
      }
    }
  }

  /** Past the last document the listing is of them all. */
  lemma ListingAll(docs: map<Id, Document>, key: Id, entries: seq<Line>)
    requires Listing(docs, key, entries) && NoneAfter(docs, key)
    ensures Listing(docs, MAX_ID, entries)
  {
  }

  /** Filling a chunk carries the listing on from where it stood. */
  lemma {:induction false} FillLists(s: Snapshot, at: Position, lead: seq<Line>, entries: seq<Line>, n: nat, sizes: Sizes, pre: seq<Line>)
    returns (more: seq<Line>)
    requires at.section == 1 && Listing(s.docs, at.key, pre + entries) && at.records == |pre + entries|
    requires Fill(s, at, lead + entries, n, sizes).Filled?
    ensures var f := Fill(s, at, lead + entries, n, sizes);
            f.body == lead + more && Listing(s.docs, Reach(f.at), pre + more) && f.at.records == |pre + more|
            && 1 <= f.at.section <= 2 && f.at.chain == at.chain && |more| >= |entries|
            && (Open(at, lead + entries, n, sizes) ==> f.at.section == 2 || |more| > |entries|)
    decreases if n < CHUNK_RECORDS then CHUNK_RECORDS - n else 0
  {
    hide Listing;
    more := entries;
    if Open(at, lead + entries, n, sizes) {
      match NextDoc(s.docs, at.key)
      case None =>
        ListingAll(s.docs, at.key, pre + entries);
      case Some(id) =>
        var line := EntryOf(id, s.docs[id]);
        ListingNext(s.docs, at.key, pre + entries, id);
        assert pre + (entries + [line]) == pre + entries + [line];
        assert lead + (entries + [line]) == lead + entries + [line];
        more := FillLists(s, at.(key := id, records := at.records + 1), lead, entries + [line], n + 1, sizes, pre);
    }
  }

  /** What the first `k` chunks hold: the manifest, the documents so far, and the end once over. */
  ghost predicate Holds(s: Snapshot, at: Position, lines: seq<Line>, entries: seq<Line>, chain: Chain) {
    Listing(s.docs, Reach(at), entries) && at.records == |entries| && 1 <= at.section <= 2
    && lines == [ManifestOf(s)] + entries + (if at.section > 1 then [Finish(at.records, chain)] else [])
  }

  lemma BuildHolds(s: Snapshot, at: Position, sizes: Sizes, lines: seq<Line>, pre: seq<Line>) returns (entries: seq<Line>)
    requires 0 !in s.docs && Build(s, at, sizes).Some?
    requires if at.section == 0 then at == ORIGIN && lines == [] && pre == []
             else at.section == 1 && Holds(s, at, lines, pre, at.chain)
    ensures var c := Build(s, at, sizes).value; Holds(s, c.after, lines + c.body, entries, at.chain)
    ensures Open(Opened(at), Opening(s, at), 0, sizes) ==> Build(s, at, sizes).value.after.section == 2 || |entries| > |pre|
  {
    var lead := Opening(s, at);
    assert pre + [] == pre && lead + [] == lead;
    if at.section == 0 { EmptyListing(s.docs); }
    hide Fill, Listing, Build, Open;
    BuildIs(s, at, sizes);
    var more := FillLists(s, Opened(at), lead, [], 0, sizes, pre);
    entries := pre + more;
    HoldsMore(s, at, lines, pre, lead, more, Fill(s, Opened(at), lead, 0, sizes).at, Build(s, at, sizes).value);
  }

  /** A chunk is what was filled, closed. */
  lemma BuildIs(s: Snapshot, at: Position, sizes: Sizes)
    requires Build(s, at, sizes).Some?
    ensures var f, c := Fill(s, Opened(at), Opening(s, at), 0, sizes), Build(s, at, sizes).value;
            f.Filled? && c.body == Closed(f.at, f.body) && c.after == f.at.(chain := c.after.chain)
  {
    hide Fill;
  }

  lemma HoldsMore(s: Snapshot, at: Position, lines: seq<Line>, pre: seq<Line>, lead: seq<Line>, more: seq<Line>, to: Position, c: Chunk)
    requires lead == Opening(s, at) && to.chain == at.chain && 1 <= to.section <= 2
    requires if at.section == 0 then lines == [] && pre == [] else at.section == 1 && lines == [ManifestOf(s)] + pre
    requires c.body == Closed(to, lead + more) && c.after == to.(chain := c.after.chain)
    requires Listing(s.docs, Reach(to), pre + more) && to.records == |pre + more|
    ensures Holds(s, c.after, lines + c.body, pre + more, at.chain)
  {
    hide Listing;
    var tail := if to.section > 1 then [Finish(to.records, at.chain)] else [];
    assert c.body == lead + more + tail;
    assert lines + (lead + more + tail) == [ManifestOf(s)] + (pre + more) + tail;
  }

  lemma EmptyListing(docs: map<Id, Document>)
    requires 0 !in docs
    ensures Listing(docs, 0, [])
  {
  }

  lemma {:induction false} TrailHolds(s: Snapshot, k: nat, sizes: Sizes) returns (entries: seq<Line>)
    requires 0 !in s.docs && k > 0 && Trail(s, k, sizes).Some?
    ensures Holds(s, Trail(s, k, sizes).value, Joined(Frames(s, k, sizes)), entries, Trail(s, k - 1, sizes).value.chain)
    ensures Trail(s, k, sizes).value.section == 2 || |entries| >= k - 1
  {
    hide Build, Holds;
    var p := Trail(s, k - 1, sizes).value;
    JoinedNext(s, k, sizes);
    var lines := Joined(Frames(s, k - 1, sizes));
    if k == 1 {
      entries := BuildHolds(s, p, sizes, [], []);
    } else {
      var pre := TrailHolds(s, k - 1, sizes);
      HoldsOn(s, p, lines, pre, Trail(s, k - 2, sizes).value.chain, p.chain, sizes);
      entries := BuildHolds(s, p, sizes, lines, pre);
    }
  }

  lemma JoinedNext(s: Snapshot, k: nat, sizes: Sizes)
    requires k > 0 && Trail(s, k, sizes).Some?
    ensures Joined(Frames(s, k, sizes))
         == Joined(Frames(s, k - 1, sizes)) + Build(s, Trail(s, k - 1, sizes).value, sizes).value.body
  {
    hide Build;
    TrailChain(s, k, sizes);
    TrailChain(s, k - 1, sizes);
    assert Frames(s, k, sizes)[..k - 1] == Frames(s, k - 1, sizes);
  }

  lemma HoldsOn(s: Snapshot, p: Position, lines: seq<Line>, pre: seq<Line>, was: Chain, chain: Chain, sizes: Sizes)
    requires Holds(s, p, lines, pre, was) && p.section <= 1
    ensures Holds(s, p, lines, pre, chain) && p.section == 1 && Open(Opened(p), Opening(s, p), 0, sizes)
  {
  }

  /** A finished export is the manifest, every document once in id order, and the end that counts them. */
  lemma FinishedExportIsWhole(s: Snapshot, k: nat, sizes: Sizes) returns (entries: seq<Line>)
    requires 0 !in s.docs && Trail(s, k, sizes).Some? && Trail(s, k, sizes).value.section > 1
    ensures k > 0 && Listing(s.docs, MAX_ID, entries) && |entries| == |s.docs|
    ensures Joined(Frames(s, k, sizes))
         == [ManifestOf(s)] + entries + [Finish(|s.docs|, Trail(s, k - 1, sizes).value.chain)]
    ensures Trail(s, k, sizes).value.records == |s.docs|
  {
    hide Build;
    entries := TrailHolds(s, k, sizes);
    ListingCount(s.docs, MAX_ID, entries);
  }

  ghost function Upto(docs: map<Id, Document>, key: Id): set<Id> { set id | id in docs && id <= key }

  lemma ListingCount(docs: map<Id, Document>, key: Id, entries: seq<Line>)
    requires Listing(docs, key, entries)
    ensures |entries| == |Upto(docs, key)| && (key == MAX_ID ==> |Upto(docs, key)| == |docs|) && |Upto(docs, key)| <= |docs|
  {
    var ids := IdsOf(entries);
    IdsCount(entries);
    forall id | id in Upto(docs, key) ensures id in ids {
      assert Listed(entries, id);
    }
    assert ids == Upto(docs, key);
    if key == MAX_ID { assert Upto(docs, key) == docs.Keys; }
    Fewer(Upto(docs, key), docs.Keys);
  }

  ghost function IdsOf(entries: seq<Line>): set<Id> { set k | 0 <= k < |entries| && entries[k].Doc? :: entries[k].id }

  lemma {:induction false} IdsCount(entries: seq<Line>)
    requires forall k :: 0 <= k < |entries| ==> entries[k].Doc?
    requires forall j, k :: 0 <= j < k < |entries| ==> entries[j].id < entries[k].id
    ensures |IdsOf(entries)| == |entries|
    decreases |entries|
  {
    if entries != [] {
      var n := |entries| - 1;
      IdsCount(entries[..n]);
      assert IdsOf(entries) == IdsOf(entries[..n]) + {entries[n].id};
    }
  }

  lemma {:induction false} Fewer(a: set<Id>, b: set<Id>)
    requires a <= b
    ensures |a| <= |b|
    decreases |a|
  {
    if a != {} {
      var x :| x in a;
      Fewer(a - {x}, b - {x});
    }
  }

  /** A verifier accepts a finished export exactly when every line of it fits the reader's buffer. */
  lemma FinishedExportVerifies(s: Snapshot, k: nat, sizes: Sizes)
    requires 0 !in s.docs && s.community != "" && Trail(s, k, sizes).Some? && Trail(s, k, sizes).value.section > 1
    ensures Complete(Joined(Frames(s, k, sizes)))
    ensures AllReadable(Joined(Frames(s, k, sizes)), sizes.width) <==>
              Readable(ManifestOf(s), sizes.width)
              && Readable(Finish(|s.docs|, Trail(s, k - 1, sizes).value.chain), sizes.width)
              && forall id :: id in s.docs ==> Readable(EntryOf(id, s.docs[id]), sizes.width)
  {
    hide Build, Frames, Joined, Complete, AllReadable, Listing, Readable;
    var entries := FinishedExportIsWhole(s, k, sizes);
    var last := Finish(|s.docs|, Trail(s, k - 1, sizes).value.chain);
    ListingComplete(s, entries, last);
    ReadableParts(ManifestOf(s), entries, last, sizes.width);
    ReadableEntries(s.docs, entries, sizes.width);
  }

  predicate SameDocument(line: Line, d: Document) {
    line.Doc? && line.path == d.path && line.markdown == d.markdown && line.fingerprint == d.fingerprint
  }

  /** An archive of the snapshot: its name, scope and sequence first, then every document once, in id
      order and with its own path, text and fingerprint, nothing else, and the number of them last. */
  ghost predicate IsArchiveOf(lines: seq<Line>, s: Snapshot) {
    |lines| == |s.docs| + 2
    && lines[0].Manifest? && lines[0].format == FORMAT && lines[0].community == s.community && lines[0].name == s.name
    && lines[0].scope == s.scope && lines[0].sequence == s.sequence
    && (forall k :: 0 < k < |lines| - 1 ==> lines[k].Doc? && lines[k].id in s.docs && SameDocument(lines[k], s.docs[lines[k].id]))
    && (forall j, k :: 0 < j < k < |lines| - 1 ==> lines[j].Doc? && lines[k].Doc? && lines[j].id < lines[k].id)
    && (forall id :: id in s.docs ==> exists k :: 0 < k < |lines| - 1 && lines[k].Doc? && lines[k].id == id)
    && lines[|lines| - 1].Finish? && lines[|lines| - 1].records == |s.docs|
  }

  lemma ListingIsArchive(s: Snapshot, entries: seq<Line>, last: Line)
    requires Listing(s.docs, MAX_ID, entries) && |entries| == |s.docs| && last.Finish? && last.records == |s.docs|
    ensures IsArchiveOf([ManifestOf(s)] + entries + [last], s)
  {
    var lines := [ManifestOf(s)] + entries + [last];
    assert forall j :: 0 < j < |lines| - 1 ==> lines[j] == entries[j - 1];
    forall id | id in s.docs ensures exists k :: 0 < k < |lines| - 1 && lines[k].Doc? && lines[k].id == id {
      assert Listed(entries, id);
      var j :| 0 <= j < |entries| && entries[j].Doc? && entries[j].id == id;
      assert lines[j + 1].id == id;
    }
  }

  /** A finished export is an archive of what was locked. */
  lemma FinishedExportIsArchive(s: Snapshot, k: nat, sizes: Sizes)
    requires 0 !in s.docs && Trail(s, k, sizes).Some? && Trail(s, k, sizes).value.section > 1
    ensures IsArchiveOf(Joined(Frames(s, k, sizes)), s)
  {
    hide Build, Frames, Joined, IsArchiveOf, Listing;
    var entries := FinishedExportIsWhole(s, k, sizes);
    ListingIsArchive(s, entries, Finish(|s.docs|, Trail(s, k - 1, sizes).value.chain));
  }

  lemma ListingComplete(s: Snapshot, entries: seq<Line>, last: Line)
    requires Listing(s.docs, MAX_ID, entries) && s.community != "" && last.Finish? && last.records == |entries|
    ensures Complete([ManifestOf(s)] + entries + [last])
  {
    var lines := [ManifestOf(s)] + entries + [last];
    forall j | 0 < j < |lines| - 1 ensures lines[j].Doc? {
      assert lines[j] == entries[j - 1];
    }
  }

  lemma ReadableParts(first: Line, entries: seq<Line>, last: Line, width: Width)
    ensures AllReadable([first] + entries + [last], width)
            <==> Readable(first, width) && Readable(last, width) && AllReadable(entries, width)
  {
    var lines := [first] + entries + [last];
    assert lines[0] == first && lines[|lines| - 1] == last;
    assert forall j :: 0 <= j < |entries| ==> lines[j + 1] == entries[j];
    if AllReadable(lines, width) {
      forall j | 0 <= j < |entries| ensures Readable(entries[j], width) {
        assert Readable(lines[j + 1], width);
      }
    }
    if Readable(first, width) && Readable(last, width) && AllReadable(entries, width) {
      forall j | 0 <= j < |lines| ensures Readable(lines[j], width) {
        if 0 < j < |lines| - 1 { assert lines[j] == entries[j - 1]; }
      }
    }
  }

  lemma ReadableEntries(docs: map<Id, Document>, entries: seq<Line>, width: Width)
    requires Listing(docs, MAX_ID, entries)
    ensures AllReadable(entries, width) <==> forall id :: id in docs ==> Readable(EntryOf(id, docs[id]), width)
  {
    hide Readable;
    if AllReadable(entries, width) {
      forall id | id in docs ensures Readable(EntryOf(id, docs[id]), width) {
        assert Listed(entries, id);
        var j :| 0 <= j < |entries| && entries[j].Doc? && entries[j].id == id;
        assert Readable(entries[j], width);
      }
    }
  }

  // ---------- The export always ends ----------

  /** Lines that fit the reader's buffer, and rows the exporter takes. */
  ghost predicate AllFit(s: Snapshot, sizes: Sizes) {
    Readable(ManifestOf(s), sizes.width)
    && (forall id :: id in s.docs ==> Exportable(EntryOf(id, s.docs[id]), sizes) && Readable(EntryOf(id, s.docs[id]), sizes.width))
    && forall n, c :: Readable(Finish(n, c), sizes.width)
  }

  lemma {:induction false} FillFits(s: Snapshot, at: Position, body: seq<Line>, n: nat, sizes: Sizes)
    requires AllFit(s, sizes) && Size(body, sizes.width) < CHUNK + MAX_RECORD
    ensures var f := Fill(s, at, body, n, sizes);
            f.Filled? && Size(f.body, sizes.width) < CHUNK + MAX_RECORD
            && (at.section <= 1 && f.at.section > 1 ==> Size(f.body, sizes.width) < CHUNK)
    decreases if n < CHUNK_RECORDS then CHUNK_RECORDS - n else 0, 2 - at.section
  {
    if Open(at, body, n, sizes) {
      match NextDoc(s.docs, at.key)
      case None => FillFits(s, at.(section := at.section + 1, key := 0), body, n, sizes);
      case Some(id) =>
        var line := EntryOf(id, s.docs[id]);
        assert (body + [line])[..|body|] == body;
        FillFits(s, at.(key := id, records := at.records + 1), body + [line], n + 1, sizes);
    }
  }

  /** The limit on a whole chunk is never what stops an export: two limits before it are enough. */
  lemma BuildNeverFails(s: Snapshot, at: Position, sizes: Sizes)
    requires AllFit(s, sizes) && at.section <= 1
    ensures Build(s, at, sizes).Some?
  {
    hide Fill;
    var lead := Opening(s, at);
    assert lead != [] ==> lead[..0] == [];
    assert Size(lead, sizes.width) <= MAX_RECORD;
    FillFits(s, Opened(at), lead, 0, sizes);
    var f := Fill(s, Opened(at), lead, 0, sizes);
    var last := Finish(f.at.records, f.at.chain);
    assert (f.body + [last])[..|f.body|] == f.body;
    assert Readable(last, sizes.width);
  }

  /** At most two chunks more than there are documents. */
  lemma ExportEnds(s: Snapshot, sizes: Sizes) returns (k: nat)
    requires AllFit(s, sizes) && 0 !in s.docs
    ensures k <= |s.docs| + 2 && Trail(s, k, sizes).Some? && Trail(s, k, sizes).value.section > 1
  {
    hide Build, AllFit;
    k := 0;
    while Trail(s, k, sizes).value.section <= 1
      invariant Trail(s, k, sizes).Some? && k <= |s.docs| + 2
      decreases |s.docs| + 2 - k
    {
      BuildNeverFails(s, Trail(s, k, sizes).value, sizes);
      if k > 0 {
        var entries := TrailHolds(s, k, sizes);
        ListingCount(s.docs, Reach(Trail(s, k, sizes).value), entries);
      }
      k := k + 1;
    }
  }
}

/** A whole deletion with its archive: the owner's steps, the client's download, and a network
  that loses and repeats what it carries.

  `wire` holds every response ever sent; one is lost by never arriving and repeated by
  arriving twice. `frozen` keeps, per ticket, what was locked under it; no step reads it.
 */
module ArchiveTransfer {
  import opened KnowledgeLibrary
  import opened ArchiveFormat
  import opened ArchiveExport

  /** A file is the frames in it; Torn is whatever a crash left of a write. */
  datatype Frame = Frame(body: seq<Line>) | Torn

  datatype Stage = Stopped | Running | Written(response: Response)

  /** The checkpoint, which knows the digest of the frames it covers, and the partial file beside it. */
  datatype Client = Client(ticket: nat, index: nat, chain: Chain, records: nat, done: bool, digest: seq<Frame>,
                           file: seq<Frame>, stage: Stage)

  datatype World = World(content: Snapshot, session: Option<Session>, tickets: nat, client: Client,
                         wire: set<(nat, Response)>, frozen: map<nat, Snapshot>, erased: bool)

  datatype Event =
    | Edit(content: Snapshot)
    | Prepare(now: int)
    | Lock(ticket: nat, archive: bool, now: int)
    | Cancel
    | Expire(now: int)
    | VerifyStep(ticket: nat, chain: Chain, records: nat, now: int)
    | Erase(ticket: nat, now: int)
    | Request(index: nat, now: int)
    | Receive(response: Response)
    | Save
    | Stop(file: seq<Frame>)
    | Restart
    | NewDownload(ticket: nat)

  // ---------- The owner's steps ----------

  /** A session that has not expired; every step drops one that has. */
  function Live(w: World, now: int): Option<Session> {
    if w.session.Some? && now <= w.session.value.expires then w.session else None
  }

  predicate IsLocked(w: World) { w.session.Some? && w.session.value.phase != Preview }

  function Prepared(w: World, now: int): World {
    var live := Live(w, now);
    if live.Some? && live.value.phase != Preview then w
    else
      var x := if live.Some? then live.value.(ticket := w.tickets + 1, expires := now + HOUR)
               else Session(w.tickets + 1, Preview, false, now + HOUR, 0, ORIGIN, ORIGIN);
      w.(session := Some(x), tickets := w.tickets + 1)
  }

  function LockedWorld(w: World, ticket: nat, archive: bool, now: int): World {
    var live := Live(w, now);
    if live.None? || live.value.ticket != ticket || live.value.phase != Preview then w
    else w.(session := Some(live.value.(archive := archive, phase := Locked, expires := now + HOUR)),
            frozen := w.frozen[ticket := w.content])
  }

  /** The client's report is taken only for the chain and count the session itself ended with. */
  predicate CanVerify(w: World, ticket: nat, chain: Chain, records: nat, now: int) {
    var live := Live(w, now);
    live.Some? && live.value.ticket == ticket && live.value.archive
    && (live.value.phase == Downloaded || live.value.phase == Verified)
    && live.value.at.chain == chain && live.value.at.records == records
  }

  function VerifiedWorld(w: World, ticket: nat, chain: Chain, records: nat, now: int): World {
    if CanVerify(w, ticket, chain, records, now) then
      w.(session := Some(w.session.value.(phase := Verified, expires := now + HOUR)))
    else w
  }

  /** Content goes only after a verified archive, or a lock that waived it. */
  predicate CanErase(w: World, ticket: nat, now: int) {
    w.session.Some? && now < w.session.value.expires && w.session.value.ticket == ticket
    && (w.session.value.phase == Verified || (w.session.value.phase == Locked && !w.session.value.archive))
  }

  // ---------- The download ----------

  /** What the client requires of a response before it writes it. */
  predicate Acceptable(c: Client, r: Response, sizes: Sizes) {
    Size(r.body, sizes.width) <= MAX_CHUNK && r.next == c.index + 1 && r.chain == Link(c.chain, r.body) && r.records >= c.records
  }

  function Saved(c: Client, r: Response): Client {
    c.(index := r.next, chain := r.chain, records := r.records, done := r.done, digest := c.digest + [Frame(r.body)],
       stage := Running)
  }

  function Fresh(ticket: nat): Client { Client(ticket, 0, Origin, 0, false, [], [], Running) }

  /** Whatever happened to the file, it must begin with the frames of the checkpoint, and is cut back to them. */
  predicate CanRestart(c: Client) { |c.file| >= |c.digest| && c.file[..|c.digest|] == c.digest }

  ghost predicate Enabled(w: World, e: Event, sizes: Sizes) {
    match e
    case Edit(content) => !w.erased && !IsLocked(w) && SnapshotOk(content)
    case Prepare(_) => !w.erased
    case Request(index, _) => index <= w.client.index
    case Receive(r) => w.client.stage.Running? && !w.client.done && (w.client.ticket, r) in w.wire
    case Save => w.client.stage.Written?
    case Restart => w.client.stage.Stopped?
    case NewDownload(ticket) => w.client.ticket < ticket <= w.tickets
    case _ => true
  }

  ghost function Next(w: World, e: Event, sizes: Sizes): World
    requires Enabled(w, e, sizes)
  {
    match e
    case Edit(content) => w.(content := content)
    case Prepare(now) => Prepared(w, now)
    case Lock(ticket, archive, now) => LockedWorld(w, ticket, archive, now)
    case Cancel => w.(session := None)
    case Expire(now) => if w.session.Some? && w.session.value.expires <= now then w.(session := None) else w
    case VerifyStep(ticket, chain, records, now) => VerifiedWorld(w, ticket, chain, records, now)
    case Erase(ticket, now) => if CanErase(w, ticket, now) then w.(session := None, erased := true) else w
    case Request(index, now) => Requested(w, index, now, sizes)
    case Receive(r) =>
      if Acceptable(w.client, r, sizes) then
        w.(client := w.client.(file := w.client.file + [Frame(r.body)], stage := Written(r)))
      else w.(client := w.client.(stage := Stopped))
    case Save => w.(client := Saved(w.client, w.client.stage.response))
    case Stop(file) => w.(client := w.client.(file := file, stage := Stopped))
    case Restart => w.(client := Restarted(w.client))
    case NewDownload(ticket) => w.(client := Fresh(ticket))
  }

  function Restarted(c: Client): Client {
    if CanRestart(c) then c.(file := c.file[..|c.digest|], stage := Running) else c
  }

  ghost function Requested(w: World, index: nat, now: int, sizes: Sizes): World {
    if w.session.None? then w
    else
      var x := w.session.value;
      match Serve(w.content, x, w.client.ticket, index, now, sizes)
      case No(_) => w
      case Answered(r) =>
        w.(session := Some(Served(w.content, x, w.client.ticket, index, now, sizes)), wire := w.wire + {(w.client.ticket, r)})
  }

  // ---------- What holds throughout ----------

  /** The response for chunk `k` of a frozen snapshot. */
  ghost predicate IsReply(s: Snapshot, k: nat, r: Response, sizes: Sizes) {
    r.next == k + 1 && Trail(s, k, sizes).Some? && Trail(s, k, sizes).value.section <= 1
    && Build(s, Trail(s, k, sizes).value, sizes).Some?
    && r == ReplyFor(Build(s, Trail(s, k, sizes).value, sizes).value, k)
  }

  ghost predicate SessionOk(w: World, sizes: Sizes) {
    match w.session
    case None => true
    case Some(x) =>
      x.ticket == w.tickets
      && if x.phase == Preview then x.next == 0 && x.at == ORIGIN && x.previous == ORIGIN && !x.archive
         else x.ticket in w.frozen && w.frozen[x.ticket] == w.content && CursorOk(w.content, x, sizes)
  }

  ghost predicate CursorOk(s: Snapshot, x: Session, sizes: Sizes) {
    Trail(s, x.next, sizes) == Some(x.at)
    && (x.next > 0 ==> Trail(s, x.next - 1, sizes) == Some(x.previous))
    && (x.phase == Locked <==> x.at.section <= 1)
    && (!x.archive ==> x.next == 0)
  }

  ghost predicate WireOk(w: World, sizes: Sizes) {
    forall m :: m in w.wire ==> m.0 in w.frozen && m.1.next > 0 && IsReply(w.frozen[m.0], m.1.next - 1, m.1, sizes)
                                && (w.session.Some? && w.session.value.ticket == m.0 ==> m.1.next <= w.session.value.next)
  }

  /** The checkpoint is the export's own cursor, and its digest that of the export's chunks up to there. */
  ghost predicate CheckpointOk(c: Client, frozen: map<nat, Snapshot>, sizes: Sizes) {
    if c.index == 0 then c.chain == Origin && c.records == 0 && !c.done && c.digest == []
    else c.ticket in frozen && CheckpointAt(c.index, c.chain, c.records, c.done, c.digest, frozen[c.ticket], sizes)
  }

  ghost predicate CheckpointAt(index: nat, chain: Chain, records: nat, done: bool, digest: seq<Frame>, s: Snapshot, sizes: Sizes) {
    Trail(s, index, sizes).Some?
    && chain == Trail(s, index, sizes).value.chain && records == Trail(s, index, sizes).value.records
    && (done <==> Trail(s, index, sizes).value.section > 1)
    && digest == Whole(Frames(s, index, sizes))
  }

  function Whole(bodies: seq<seq<Line>>): (frames: seq<Frame>)
    ensures |frames| == |bodies|
  {
    if bodies == [] then [] else Whole(bodies[..|bodies| - 1]) + [Frame(bodies[|bodies| - 1])]
  }

  ghost predicate StageOk(c: Client) {
    match c.stage
    case Stopped => true
    case Running => c.file == c.digest
    case Written(r) => c.file == c.digest + [Frame(r.body)] && !c.done
  }

  ghost predicate WrittenOk(c: Client, frozen: map<nat, Snapshot>, sizes: Sizes) {
    c.stage.Written? ==> c.ticket in frozen && IsReply(frozen[c.ticket], c.index, c.stage.response, sizes)
  }

  /** The server is where the client is, or one chunk ahead; ahead of another's client not at all. */
  predicate InStep(w: World) {
    w.session.Some? ==>
      var x := w.session.value;
      if x.ticket == w.client.ticket then
        w.client.index <= x.next <= w.client.index + 1 && (w.client.stage.Written? ==> x.next == w.client.index + 1)
      else x.next == 0
  }

  predicate SnapshotOk(s: Snapshot) { 0 !in s.docs && s.community != "" }

  ghost predicate Inv(w: World, sizes: Sizes) {
    SnapshotOk(w.content) && (forall t :: t in w.frozen ==> t <= w.tickets && SnapshotOk(w.frozen[t])) && w.client.ticket <= w.tickets
    && SessionOk(w, sizes) && WireOk(w, sizes) && CheckpointOk(w.client, w.frozen, sizes) && StageOk(w.client)
    && WrittenOk(w.client, w.frozen, sizes) && InStep(w)
    && (w.session.Some? && w.session.value.phase == Preview ==> w.session.value.ticket !in w.frozen)
  }

  // ---------- Every event keeps it ----------

  lemma TrailBefore(s: Snapshot, k: nat, sizes: Sizes)
    requires k > 0 && Trail(s, k, sizes).Some?
    ensures Trail(s, k - 1, sizes).Some? && Trail(s, k - 1, sizes).value.section <= 1
    ensures Build(s, Trail(s, k - 1, sizes).value, sizes).Some?
    ensures Trail(s, k, sizes).value == Build(s, Trail(s, k - 1, sizes).value, sizes).value.after
  {
    hide Build;
  }

  /** What the server answers in either case is the reply for the index it was asked for. */
  lemma AnswerIsReply(s: Snapshot, x: Session, ticket: nat, index: nat, now: int, sizes: Sizes)
    requires CursorOk(s, x, sizes) && Serve(s, x, ticket, index, now, sizes).Answered?
    ensures IsReply(s, index, Serve(s, x, ticket, index, now, sizes).response, sizes)
    ensures CursorOk(s, Served(s, x, ticket, index, now, sizes), sizes)
    ensures var y := Served(s, x, ticket, index, now, sizes);
            y.ticket == x.ticket == ticket && y.phase != Preview
            && (if Replays(x, index) then y == x else index == x.next && y.next == x.next + 1)
  {
    hide Build;
    if Replays(x, index) { TrailBefore(s, x.next, sizes); }
  }

  lemma RequestKeeps(w: World, index: nat, now: int, sizes: Sizes)
    requires Inv(w, sizes) && index <= w.client.index
    ensures Inv(Requested(w, index, now, sizes), sizes)
  {
    if w.session.Some? {
      var x := w.session.value;
      hide Serve, Served;
      if Serve(w.content, x, w.client.ticket, index, now, sizes).Answered? {
        ServedIsLocked(w.content, x, w.client.ticket, index, now, sizes);
        AnswerIsReply(w.content, x, w.client.ticket, index, now, sizes);
        hide CursorOk, IsReply, CheckpointOk, StageOk, WrittenOk;
        WireGrows(w, Requested(w, index, now, sizes), index, Serve(w.content, x, w.client.ticket, index, now, sizes).response, sizes);
        hide WireOk;
      }
    }
  }

  lemma WireGrows(w: World, w': World, index: nat, r: Response, sizes: Sizes)
    requires WireOk(w, sizes) && w'.frozen == w.frozen && w'.wire == w.wire + {(w.client.ticket, r)}
    requires w.session.Some? && w'.session.Some? && w'.session.value.ticket == w.session.value.ticket == w.client.ticket
    requires w'.session.value.next >= w.session.value.next && r.next == index + 1 <= w'.session.value.next
    requires w.client.ticket in w.frozen && IsReply(w.frozen[w.client.ticket], index, r, sizes)
    ensures WireOk(w', sizes)
  {
    hide IsReply;
  }

  lemma ServedIsLocked(s: Snapshot, x: Session, ticket: nat, index: nat, now: int, sizes: Sizes)
    requires Serve(s, x, ticket, index, now, sizes).Answered?
    ensures x.phase != Preview && x.ticket == ticket
    ensures Serve(s, x, ticket, index, now, sizes).response.next == index + 1
  {
    hide Build;
  }

  lemma SaveKeeps(c: Client, s: Snapshot, frozen: map<nat, Snapshot>, sizes: Sizes)
    requires c.stage.Written? && c.ticket in frozen && frozen[c.ticket] == s
    requires CheckpointOk(c, frozen, sizes) && StageOk(c) && IsReply(s, c.index, c.stage.response, sizes)
    ensures CheckpointOk(Saved(c, c.stage.response), frozen, sizes) && StageOk(Saved(c, c.stage.response))
    ensures c.stage.response.next == c.index + 1
  {
    var r := c.stage.response;
    TrailNext(s, c.index, sizes);
    TrailStart(s, sizes);
    hide Build, Trail, Frames, Whole;
  }

  lemma TrailStart(s: Snapshot, sizes: Sizes)
    ensures Trail(s, 0, sizes) == Some(ORIGIN) && Whole(Frames(s, 0, sizes)) == []
  {
  }

  lemma TrailNext(s: Snapshot, k: nat, sizes: Sizes)
    requires Trail(s, k, sizes).Some? && Trail(s, k, sizes).value.section <= 1
    requires Build(s, Trail(s, k, sizes).value, sizes).Some?
    ensures var c := Build(s, Trail(s, k, sizes).value, sizes).value;
            Trail(s, k + 1, sizes) == Some(c.after)
            && Whole(Frames(s, k + 1, sizes)) == Whole(Frames(s, k, sizes)) + [Frame(c.body)]
  {
    hide Build;
    var f := Frames(s, k + 1, sizes);
    assert f[..|f| - 1] == Frames(s, k, sizes);
  }

  lemma ReceiveKeeps(w: World, r: Response, sizes: Sizes)
    requires Inv(w, sizes) && Enabled(w, Receive(r), sizes)
    ensures Inv(Next(w, Receive(r), sizes), sizes)
  {
    hide CheckpointAt, CursorOk, Build, IsReply;
    var m := (w.client.ticket, r);
    assert m in w.wire;
    assert m.0 in w.frozen && IsReply(w.frozen[m.0], m.1.next - 1, m.1, sizes);
  }

  lemma NextKeeps(w: World, e: Event, sizes: Sizes)
    requires Inv(w, sizes) && Enabled(w, e, sizes)
    ensures Inv(Next(w, e, sizes), sizes)
  {
    hide CheckpointAt, CursorOk, Build, IsReply, Requested;
    match e {
      case Request(index, now) => RequestKeeps(w, index, now, sizes);
      case Receive(r) => ReceiveKeeps(w, r, sizes);
      case Save => SaveKeeps(w.client, w.frozen[w.client.ticket], w.frozen, sizes);
      case Lock(ticket, archive, now) => LockKeeps(w, ticket, archive, now, sizes);
      case VerifyStep(ticket, chain, records, now) => VerifyKeeps(w, ticket, chain, records, now, sizes);
      case Prepare(now) => PrepareKeeps(w, now, sizes);
      case _ =>
    }
  }

  lemma LockKeeps(w: World, ticket: nat, archive: bool, now: int, sizes: Sizes)
    requires Inv(w, sizes)
    ensures Inv(LockedWorld(w, ticket, archive, now), sizes)
  {
    hide CheckpointAt, Build, IsReply;
  }

  lemma VerifyKeeps(w: World, ticket: nat, chain: Chain, records: nat, now: int, sizes: Sizes)
    requires Inv(w, sizes)
    ensures Inv(VerifiedWorld(w, ticket, chain, records, now), sizes)
  {
    hide CheckpointAt, Build, IsReply;
  }

  lemma PrepareKeeps(w: World, now: int, sizes: Sizes)
    requires Inv(w, sizes)
    ensures Inv(Prepared(w, now), sizes)
  {
    hide CheckpointAt, Build, IsReply, CursorOk;
  }

  // ---------- Runs ----------

  function Start(content: Snapshot): World {
    World(content, None, 0, Fresh(0), {}, map[], false)
  }

  ghost predicate Run(w: World, events: seq<Event>, sizes: Sizes)
    decreases |events|
  {
    events == [] || (Enabled(w, events[0], sizes) && Run(Next(w, events[0], sizes), events[1..], sizes))
  }

  ghost function After(w: World, events: seq<Event>, sizes: Sizes): World
    requires Run(w, events, sizes)
    decreases |events|
  {
    if events == [] then w else After(Next(w, events[0], sizes), events[1..], sizes)
  }

  lemma StartIsOk(content: Snapshot, sizes: Sizes)
    requires SnapshotOk(content)
    ensures Inv(Start(content), sizes)
  {
  }

  /** Whatever is lost, repeated, stopped, restarted, cancelled or prepared again, server and
      client stay on the one export of what was locked, at most a chunk apart. */
  lemma {:induction false} InStepOverRuns(w: World, events: seq<Event>, sizes: Sizes)
    requires Inv(w, sizes) && Run(w, events, sizes)
    ensures Inv(After(w, events, sizes), sizes)
    decreases |events|
  {
    hide Inv, Next, Enabled;
    if events != [] {
      NextKeeps(w, events[0], sizes);
      InStepOverRuns(Next(w, events[0], sizes), events[1..], sizes);
    }
  }

  /** From an unlocked community and a client with nothing: the same, whatever happens. */
  lemma InStepFromStart(content: Snapshot, events: seq<Event>, sizes: Sizes)
    requires SnapshotOk(content) && Run(Start(content), events, sizes)
    ensures Inv(After(Start(content), events, sizes), sizes)
  {
    hide Inv, Run;
    StartIsOk(content, sizes);
    InStepOverRuns(Start(content), events, sizes);
  }

  /** A chunk asked for again is the same chunk. */
  lemma RepeatedChunkIsTheSame(w: World, ticket: nat, a: Response, b: Response, sizes: Sizes)
    requires Inv(w, sizes) && (ticket, a) in w.wire && (ticket, b) in w.wire && a.next == b.next
    ensures a == b
  {
    hide Build, CursorOk, CheckpointOk;
    assert IsReply(w.frozen[(ticket, a).0], (ticket, a).1.next - 1, a, sizes);
    assert IsReply(w.frozen[(ticket, b).0], (ticket, b).1.next - 1, b, sizes);
  }

  /** A download that is behind can always go on: its next request is answered, and what comes
      back is what it requires, unless the chunk itself cannot be cut. */
  lemma ResumingIsNeverRefused(w: World, now: int, sizes: Sizes)
    requires Inv(w, sizes) && w.session.Some? && Exporting(w.session.value, w.client.ticket, now)
    requires w.client.stage.Running? && !w.client.done
    ensures var a := Serve(w.content, w.session.value, w.client.ticket, w.client.index, now, sizes);
            (a.No? ==> a.why == Oversized && !AllFit(w.content, sizes))
            && (a.Answered? ==> Acceptable(w.client, a.response, sizes))
  {
    var x, c, s := w.session.value, w.client, w.content;
    hide Serve, Trail, Build, AllFit, Acceptable;
    WhereTheClientIs(c, s, x, w.frozen, sizes);
    hide *;
    NotFailing(s, CursorFor(x, c.index), sizes);
    NextIsServed(s, x, c, now, sizes);
  }

  /** The cursor a request starts from: the session's own, or the one before it when it replays. */
  function CursorFor(x: Session, index: nat): Position { if index == x.next then x.at else x.previous }

  lemma WhereTheClientIs(c: Client, s: Snapshot, x: Session, frozen: map<nat, Snapshot>, sizes: Sizes)
    requires CursorOk(s, x, sizes) && c.index <= x.next <= c.index + 1 && !c.done && x.phase != Preview
    requires CheckpointOk(c, frozen, sizes) && c.ticket in frozen && frozen[c.ticket] == s
    ensures var p := CursorFor(x, c.index);
            p.section <= 1 && p.chain == c.chain && p.records == c.records
            && if c.index == x.next then x.phase == Locked else Build(s, p, sizes).Some? && x.at == Build(s, p, sizes).value.after
  {
    hide Trail, Build, Whole, Frames;
    TrailStart(s, sizes);
    if c.index != x.next { TrailBefore(s, x.next, sizes); }
  }

  lemma NextIsServed(s: Snapshot, x: Session, c: Client, now: int, sizes: Sizes)
    requires Exporting(x, c.ticket, now) && c.index <= x.next <= c.index + 1
    requires CursorFor(x, c.index).chain == c.chain && CursorFor(x, c.index).records == c.records
    requires if c.index == x.next then x.phase == Locked
             else Build(s, x.previous, sizes).Some? && x.at == Build(s, x.previous, sizes).value.after
    requires Build(s, CursorFor(x, c.index), sizes).None? ==> !AllFit(s, sizes)
    requires Build(s, CursorFor(x, c.index), sizes).Some? ==> Continues(Build(s, CursorFor(x, c.index), sizes).value, c.chain, c.records, sizes)
    ensures var a := Serve(s, x, c.ticket, c.index, now, sizes);
            (a.No? ==> a.why == Oversized && !AllFit(s, sizes)) && (a.Answered? ==> Acceptable(c, a.response, sizes))
  {
    hide Build, AllFit, Size;
  }

  /** A chunk that a client with this chain and count takes. */
  ghost predicate Continues(c: Chunk, chain: Chain, records: nat, sizes: Sizes) {
    Size(c.body, sizes.width) <= MAX_CHUNK && c.after.chain == Link(chain, c.body) && c.after.records >= records
  }

  lemma NotFailing(s: Snapshot, at: Position, sizes: Sizes)
    requires at.section <= 1
    ensures Build(s, at, sizes).None? ==> !AllFit(s, sizes)
    ensures Build(s, at, sizes).Some? ==> Continues(Build(s, at, sizes).value, at.chain, at.records, sizes)
  {
    if AllFit(s, sizes) { BuildNeverFails(s, at, sizes); }
    FillRecords(s, Opened(at), Opening(s, at), 0, sizes);
    hide Fill, AllFit;
  }

  lemma {:induction false} FillRecords(s: Snapshot, at: Position, body: seq<Line>, n: nat, sizes: Sizes)
    ensures Fill(s, at, body, n, sizes).Filled? ==>
              Fill(s, at, body, n, sizes).at.records >= at.records && Fill(s, at, body, n, sizes).at.chain == at.chain
    decreases if n < CHUNK_RECORDS then CHUNK_RECORDS - n else 0, 2 - at.section
  {
    if Open(at, body, n, sizes) {
      match NextDoc(s.docs, at.key)
      case None => FillRecords(s, at.(section := at.section + 1, key := 0), body, n, sizes);
      case Some(id) =>
        FillRecords(s, at.(key := id, records := at.records + 1), body + [EntryOf(id, s.docs[id])], n + 1, sizes);
    }
  }

  function Bodies(frames: seq<Frame>): seq<seq<Line>>
    requires forall k :: 0 <= k < |frames| ==> frames[k].Frame?
  {
    if frames == [] then [] else Bodies(frames[..|frames| - 1]) + [frames[|frames| - 1].body]
  }

  lemma {:induction false} BodiesOfWhole(bodies: seq<seq<Line>>)
    ensures (forall k :: 0 <= k < |bodies| ==> Whole(bodies)[k].Frame?) && Bodies(Whole(bodies)) == bodies
    decreases |bodies|
  {
    if bodies != [] {
      var n := |bodies| - 1;
      BodiesOfWhole(bodies[..n]);
      assert Whole(bodies)[..n] == Whole(bodies[..n]);
      assert bodies == bodies[..n] + [bodies[n]];
    }
  }

  /** A finished download, restarts and all, holds the manifest, every document locked under its
      ticket once in id order, and the end that counts them; its verifier takes it whenever the
      lines fit the reader, and its chain and count are the whole export's. */
  lemma FinishedDownloadIsWhole(w: World, sizes: Sizes) returns (entries: seq<Line>, last: Chain)
    requires Inv(w, sizes) && w.client.done && w.client.stage.Running?
    ensures w.client.ticket in w.frozen && forall k :: 0 <= k < |w.client.file| ==> w.client.file[k].Frame?
    ensures var s := w.frozen[w.client.ticket]; var lines := Joined(Bodies(w.client.file));
            Listing(s.docs, MAX_ID, entries) && w.client.records == |s.docs|
            && lines == [ManifestOf(s)] + entries + [Finish(|s.docs|, last)]
            && Complete(lines) && w.client.chain == ChainOf(Bodies(w.client.file))
            && (AllFit(s, sizes) ==> AllReadable(lines, sizes.width))
  {
    var s, k := w.frozen[w.client.ticket], w.client.index;
    BodiesOfWhole(Frames(s, k, sizes));
    TrailChain(s, k, sizes);
    TrailBefore(s, k, sizes);
    last := Trail(s, k - 1, sizes).value.chain;
    hide Build, Joined, Frames, Bodies, Whole, WireOk, SessionOk;
    entries := FinishedExportIsWhole(s, k, sizes);
    FinishedExportVerifies(s, k, sizes);
  }

  /** So the client holds an archive of what was locked under its ticket. */
  lemma FinishedDownloadIsArchive(w: World, sizes: Sizes)
    requires Inv(w, sizes) && w.client.done && w.client.stage.Running?
    ensures w.client.ticket in w.frozen && forall k :: 0 <= k < |w.client.file| ==> w.client.file[k].Frame?
    ensures IsArchiveOf(Joined(Bodies(w.client.file)), w.frozen[w.client.ticket])
  {
    hide Inv, Joined, Bodies, IsArchiveOf, Listing;
    var entries, last := FinishedDownloadIsWhole(w, sizes);
    ListingIsArchive(w.frozen[w.client.ticket], entries, Finish(|w.frozen[w.client.ticket].docs|, last));
  }

  /** The server takes a report of verification only for the chain and count of the whole export. */
  lemma VerificationNeedsTheWholeExport(w: World, ticket: nat, chain: Chain, records: nat, now: int, sizes: Sizes)
    requires Inv(w, sizes) && CanVerify(w, ticket, chain, records, now)
    ensures records == |w.content.docs|
    ensures exists k :: Trail(w.content, k, sizes).Some? && Trail(w.content, k, sizes).value.section > 1
                        && chain == ChainOf(Frames(w.content, k, sizes))
  {
    var x := w.session.value;
    TrailChain(w.content, x.next, sizes);
    var _ := FinishedExportIsWhole(w.content, x.next, sizes);
  }

  /** And it does take it from the client that finished. */
  lemma FinishedDownloadVerifies(w: World, now: int, sizes: Sizes)
    requires Inv(w, sizes) && w.client.done && w.session.Some? && Exporting(w.session.value, w.client.ticket, now)
    ensures CanVerify(w, w.client.ticket, w.client.chain, w.client.records, now)
  {
    hide CursorOk, CheckpointOk, WireOk, StageOk, WrittenOk;
    EndedTogether(w.client, w.content, w.session.value, w.frozen, sizes);
  }

  lemma EndedTogether(c: Client, s: Snapshot, x: Session, frozen: map<nat, Snapshot>, sizes: Sizes)
    requires CursorOk(s, x, sizes) && c.index <= x.next <= c.index + 1 && c.done && x.phase != Preview
    requires CheckpointOk(c, frozen, sizes) && c.ticket in frozen && frozen[c.ticket] == s
    ensures x.next == c.index && x.phase != Locked && x.at.chain == c.chain && x.at.records == c.records
  {
    hide Trail, Build, Whole, Frames;
    if x.next != c.index { TrailBefore(s, x.next, sizes); }
  }

  /** Nothing but an accepted report makes a session verified, and nothing is erased without one
      or a waiver given when the community was locked. */
  lemma VerifiedOnlyByReport(w: World, e: Event, sizes: Sizes)
    requires Inv(w, sizes) && Enabled(w, e, sizes)
    requires Next(w, e, sizes).session.Some? && Next(w, e, sizes).session.value.phase == Verified
    ensures (w.session.Some? && w.session.value.phase == Verified && Next(w, e, sizes).session.value.ticket == w.session.value.ticket)
            || (e.VerifyStep? && CanVerify(w, e.ticket, e.chain, e.records, e.now))
  {
    hide Build, CheckpointOk;
  }

  lemma ErasedOnlyVerifiedOrWaived(w: World, e: Event, sizes: Sizes)
    requires Inv(w, sizes) && Enabled(w, e, sizes) && !w.erased && Next(w, e, sizes).erased
    ensures MayErase(w)
  {
    hide Build, CheckpointOk, Serve, Served;
  }

  /** The whole export is verified, or none was wanted when the community was locked. */
  predicate MayErase(w: World) {
    w.session.Some?
    && var x := w.session.value;
       (x.phase == Verified && x.archive && x.at.section > 1) || (x.phase == Locked && !x.archive)
  }

  /** So in every run that erases there is a moment before it when that was so. */
  lemma {:induction false} ErasedHadLeave(w: World, events: seq<Event>, sizes: Sizes) returns (i: nat)
    requires Inv(w, sizes) && Run(w, events, sizes) && !w.erased && After(w, events, sizes).erased
    ensures i < |events| && Run(w, events[..i], sizes) && MayErase(After(w, events[..i], sizes))
    decreases |events|
  {
    hide Inv, Next, Enabled, MayErase;
    var w' := Next(w, events[0], sizes);
    if w'.erased {
      ErasedOnlyVerifiedOrWaived(w, events[0], sizes);
      i := 0;
    } else {
      NextKeeps(w, events[0], sizes);
      var j := ErasedHadLeave(w', events[1..], sizes);
      i := j + 1;
      assert events[..i][1..] == events[1..][..j] && events[..i][0] == events[0];
    }
  }

  // ---------- The owner's steps, as they run ----------

  datatype Step =
    | PrepareStep
    | StatusStep
    | CancelStep
    | LockStep(ticket: nat, archive: bool)
    | ReportStep(ticket: nat, chain: Chain, records: nat)

  function Operated(w: World, step: Step, now: int): World {
    match step
    case PrepareStep => Prepared(w, now)
    case StatusStep => w.(session := Live(w, now))
    case CancelStep => w.(session := None)
    case LockStep(ticket, archive) => LockedWorld(w, ticket, archive, now)
    case ReportStep(ticket, chain, records) => VerifiedWorld(w, ticket, chain, records, now)
  }

  /** A step may be refused, and then leaves no trace, not even of an expiry it noticed. */
  predicate Accepts(w: World, step: Step, now: int) {
    match step
    case PrepareStep => Live(w, now).None? || Live(w, now).value.phase == Preview
    case StatusStep => true
    case CancelStep => true
    case LockStep(ticket, archive) =>
      Live(w, now).Some? && Live(w, now).value.ticket == ticket
      && (Live(w, now).value.phase == Preview || Live(w, now).value.archive == archive)
    case ReportStep(ticket, chain, records) => CanVerify(w, ticket, chain, records, now)
  }

  class DeletionWorkflow {
    var session: Option<Session>
    var locked: bool
    var tickets: nat
    ghost var frozen: map<nat, Snapshot>

    ghost function In(w: World): World
      reads this
    {
      w.(session := session, tickets := tickets, frozen := frozen)
    }

    /** The library carries the session's id exactly while the session is past its preview. */
    ghost predicate Valid()
      reads this
    {
      locked <==> session.Some? && session.value.phase != Preview
    }

    constructor ()
      ensures Valid() && session == None && tickets == 0 && frozen == map[]
    {
      session, locked, tickets, frozen := None, false, 0, map[];
    }

    method Operation(step: Step, now: int, ghost w: World) returns (ok: bool)
      requires Valid() && In(w) == w
      modifies this
      ensures Valid() && In(w) == Operated(w, step, now) && ok == Accepts(w, step, now)
    {
      var found, frozenNow := session, locked;
      if found.Some? && now > found.value.expires {
        found, frozenNow := None, false;
      }
      ok := true;
      match step {
        case PrepareStep =>
          if frozenNow { return false; }
          tickets := tickets + 1;
          session := Some(if found.Some? then found.value.(ticket := tickets, phase := Preview, expires := now + HOUR)
                          else Session(tickets, Preview, false, now + HOUR, 0, ORIGIN, ORIGIN));
          locked := false;
        case StatusStep =>
          session, locked := found, frozenNow;
        case CancelStep =>
          session, locked := None, false;
        case LockStep(ticket, archive) =>
          if found.None? || found.value.ticket != ticket { return false; }
          if found.value.phase != Preview {
            ok := found.value.archive == archive;
            return;
          }
          session := Some(found.value.(archive := archive, phase := Locked, expires := now + HOUR));
          locked := true;
          frozen := frozen[ticket := w.content];
        case ReportStep(ticket, chain, records) =>
          if found.None? || found.value.ticket != ticket || !found.value.archive
             || (found.value.phase != Downloaded && found.value.phase != Verified)
             || found.value.at.chain != chain || found.value.at.records != records {
            return false;
          }
          session := Some(found.value.(phase := Verified, expires := now + HOUR));
      }
    }
  }

  // ---------- The client, as it runs ----------

  class ArchiveDownload {
    const ticket: nat
    var index: nat
    var chain: Chain
    var records: nat
    var done: bool
    var digest: seq<Frame>
    var file: seq<Frame>

    ghost function Abs(): Client
      reads this
    {
      Client(ticket, index, chain, records, done, digest, file, Running)
    }

    constructor (t: nat)
      ensures Abs() == Fresh(t)
    {
      ticket, index, chain, records, done, digest, file := t, 0, Origin, 0, false, [], [];
    }

    /** Open the partial file again: refuse one that does not begin as the checkpoint says, else cut it back. */
    method Resume() returns (ok: bool)
      modifies this`file
      ensures ok == CanRestart(old(Abs()))
      ensures Abs() == if ok then Restarted(old(Abs()).(stage := Stopped)) else old(Abs())
    {
      if |file| < |digest| || file[..|digest|] != digest { return false; }
      file := file[..|digest|];
      ok := true;
    }

    /** Check a response, write it, and save the checkpoint; anything wrong changes nothing. */
    method Take(r: Response, sizes: Sizes) returns (ok: bool)
      requires file == digest
      modifies this
      ensures file == digest && ok == Acceptable(old(Abs()), r, sizes)
      ensures Abs() == if ok then Saved(old(Abs()).(file := old(file) + [Frame(r.body)], stage := Written(r)), r) else old(Abs())
    {
      if Size(r.body, sizes.width) > MAX_CHUNK { return false; }
      if r.next != index + 1 { return false; }
      var linked := Link(chain, r.body);
      if linked != r.chain { return false; }
      if r.records < records { return false; }
      file := file + [Frame(r.body)];
      digest := digest + [Frame(r.body)];
      index, chain, records, done := r.next, linked, r.records, r.done;
      ok := true;
    }

    /** Ask for chunk after chunk until done; a failed request or a bad response leaves a resumable download. */
    method Download(replies: seq<Option<Response>>, sizes: Sizes) returns (used: nat)
      requires file == digest
      modifies this
      ensures file == digest && used <= |replies| && Abs() == AfterReplies(old(Abs()), replies[..used], sizes)
      ensures done || used == |replies| || replies[used].None? || !Acceptable(Abs(), replies[used].value, sizes)
    {
      used := 0;
      ghost var c := Abs();
      while !done && used < |replies|
        invariant used <= |replies| && file == digest && Abs() == AfterReplies(c, replies[..used], sizes)
        decreases |replies| - used
      {
        if replies[used].None? { return; }
        ghost var was := Abs();
        var ok := Take(replies[used].value, sizes);
        if !ok { return; }
        assert replies[..used + 1][..used] == replies[..used];
        used := used + 1;
      }
    }
  }

  /** The checkpoint after a run of replies that were all taken. */
  function AfterReplies(c: Client, replies: seq<Option<Response>>, sizes: Sizes): Client
    decreases |replies|
  {
    if replies == [] then c
    else
      var before := AfterReplies(c, replies[..|replies| - 1], sizes);
      match replies[|replies| - 1]
      case None => before
      case Some(r) => if before.done || !Acceptable(before, r, sizes) then before
                      else Saved(before.(file := before.file + [Frame(r.body)]), r)
  }
}

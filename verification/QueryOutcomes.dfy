/** What a whole query shows and stores, told by the rows of the cache it read and by what each link
  answered.
 */
module QueryOutcomes {
  import opened CopyBases
  import opened CopyReconciliation
  import opened Ordering
  import opened CopyIdentity
  import opened CopyQueries
  import opened CopyOutcomes

  // ---------- What a link answered ----------

  /** The link answered with a hit of this finding. */
  ghost predicate FoundBy(obs: Observation, i: nat, id: string, h: Hit)
    requires i < |obs.connections| == |obs.replies|
  {
    obs.replies[i].Some? && h in obs.replies[i].value.hits && h.finding == id && ValidIdentity(id, h.fingerprint)
  }

  ghost predicate FoundNothing(obs: Observation, i: nat, id: string)
    requires i < |obs.connections| == |obs.replies|
  {
    forall h :: !FoundBy(obs, i, id, h)
  }

  /** It only compared this text of the finding, and knows no more of it. */
  ghost predicate ComparedBy(obs: Observation, i: nat, id: string, h: Hit)
    requires i < |obs.connections| == |obs.replies|
  {
    var conn := obs.connections[i];
    obs.replies[i].Some? && KnowledgeEntry(id, h.fingerprint, h.sequence) in obs.replies[i].value.compared
    && h == Hit(conn.alias, conn.service, conn.community, id, h.fingerprint, "", "", "", h.sequence, true, [], [], NoReason, false, [])
  }

  lemma {:induction false} FoundIn(compared: seq<KnowledgeEntry>, hits: seq<Hit>, conn: Connection, id: string)
    ensures (exists h :: h in hits && h.finding == id && ValidIdentity(id, h.fingerprint)) ==>
              State(compared, hits, conn, id).Some? && State(compared, hits, conn, id).value in hits
              && State(compared, hits, conn, id).value.finding == id && ValidIdentity(id, State(compared, hits, conn, id).value.fingerprint)
    ensures !(exists h :: h in hits && h.finding == id && ValidIdentity(id, h.fingerprint)) ==>
              State(compared, hits, conn, id) == StateFrom(compared, conn, id)
    decreases |hits|
  {
    hide ValidIdentity, StateFrom;
    if hits != [] {
      var n := |hits| - 1;
      FoundIn(compared, hits[..n], conn, id);
      assert hits == hits[..n] + [hits[n]];
    }
  }

  lemma {:induction false} ComparedIn(compared: seq<KnowledgeEntry>, conn: Connection, id: string)
    ensures StateFrom(compared, conn, id).Some? <==> exists e :: e in compared && e.id == id
    ensures StateFrom(compared, conn, id).Some? ==>
              var h := StateFrom(compared, conn, id).value;
              KnowledgeEntry(id, h.fingerprint, h.sequence) in compared && h == CheckedHit(KnowledgeEntry(id, h.fingerprint, h.sequence), conn)
    decreases |compared|
  {
    if compared != [] {
      var n := |compared| - 1;
      ComparedIn(compared[..n], conn, id);
      assert compared == compared[..n] + [compared[n]];
      assert compared[n] == KnowledgeEntry(compared[n].id, compared[n].fingerprint, compared[n].sequence);
    }
  }

  /** A hit counts before a compared text; a link that knows neither, or did not answer, says nothing. */
  lemma LinkSays(obs: Observation, i: nat, id: string)
    requires i < |obs.connections| == |obs.replies|
    ensures match StateAt(obs, i, id)
            case Some(h) => FoundBy(obs, i, id, h) || (FoundNothing(obs, i, id) && ComparedBy(obs, i, id, h))
            case None => FoundNothing(obs, i, id)
                         && (obs.replies[i].Some? ==> forall e :: e in obs.replies[i].value.compared ==> e.id != id)
  {
    hide ValidIdentity, State, StateFrom;
    match obs.replies[i]
    case None =>
    case Some(r) =>
      FoundIn(r.compared, r.hits, obs.connections[i], id);
      ComparedIn(r.compared, obs.connections[i], id);
  }

  // ---------- A group, link by link ----------

  /** The row of this link's community for the finding, if it is in the current format. */
  predicate Current(rows: Bases, conn: Connection, id: string) {
    var k := BaseKey(conn.service, conn.community, id);
    k in rows && rows[k].format == KNOWLEDGE_FORMAT
  }

  ghost predicate ReadsRow(rows: Bases, conn: Connection, id: string, b: Base) {
    if Current(rows, conn, id) then
      b.fingerprint == rows[BaseKey(conn.service, conn.community, id)].fingerprint
      && b.sequence == rows[BaseKey(conn.service, conn.community, id)].sequence
    else b.fingerprint == ""
  }

  /** The copy of link `i`, with the baseline its row holds. */
  ghost predicate IsLinkCopy(obs: Observation, rows: Bases, id: string, i: nat, c: Copy)
    requires i < |obs.connections| == |obs.replies|
  {
    StateAt(obs, i, id) == Some(c.hit) && ReadsRow(rows, obs.connections[i], id, c.base)
  }

  ghost predicate FromALink(obs: Observation, rows: Bases, id: string, n: nat, c: Copy)
    requires n <= |obs.connections| == |obs.replies|
  {
    exists i :: 0 <= i < n && IsLinkCopy(obs, rows, id, i, c)
  }

  ghost predicate IsLocalCopy(obs: Observation, id: string, c: Copy) {
    id in obs.locals && c.hit == obs.locals[id] && c.base.fingerprint == ""
  }

  lemma {:induction false} GroupMembers(obs: Observation, rows: Bases, id: string, n: nat)
    requires n <= |obs.connections| == |obs.replies|
    ensures forall c :: c in GroupUpTo(obs, rows, id, n) ==> IsLocalCopy(obs, id, c) || FromALink(obs, rows, id, n, c)
    decreases n
  {
    hide StateAt;
    if n > 0 {
      GroupMembers(obs, rows, id, n - 1);
      forall c | c in GroupUpTo(obs, rows, id, n) ensures IsLocalCopy(obs, id, c) || FromALink(obs, rows, id, n, c) {
        if c in GroupUpTo(obs, rows, id, n - 1) {
          if FromALink(obs, rows, id, n - 1, c) {
            var i :| 0 <= i < n - 1 && IsLinkCopy(obs, rows, id, i, c);
          }
        } else {
          assert IsLinkCopy(obs, rows, id, n - 1, c);
        }
      }
    }
  }

  lemma {:induction false} LinkIsMember(obs: Observation, rows: Bases, id: string, n: nat, i: nat)
    requires i < n <= |obs.connections| == |obs.replies| && StateAt(obs, i, id).Some?
    ensures exists c :: c in GroupUpTo(obs, rows, id, n) && IsLinkCopy(obs, rows, id, i, c)
    decreases n
  {
    hide StateAt;
    var group := GroupUpTo(obs, rows, id, n);
    if i == n - 1 {
      var c := Copy(StateAt(obs, i, id).value, BaseOf(rows, obs.connections[i], id));
      assert c in group && IsLinkCopy(obs, rows, id, i, c);
    } else {
      LinkIsMember(obs, rows, id, n - 1, i);
      var c :| c in GroupUpTo(obs, rows, id, n - 1) && IsLinkCopy(obs, rows, id, i, c);
      assert c in group;
    }
  }

  lemma {:induction false} LocalIsMember(obs: Observation, rows: Bases, id: string, n: nat)
    requires n <= |obs.connections| == |obs.replies| && id in obs.locals
    ensures Copy(obs.locals[id], Base("", 0)) in GroupUpTo(obs, rows, id, n)
    decreases n
  {
    if n > 0 { LocalIsMember(obs, rows, id, n - 1); }
  }

  // ---------- Copies from sources of their own ----------

  function LinkKey(conn: Connection): string { conn.service + "\0" + conn.community + "\0" + conn.alias }

  /** Links go by different names, and what a link answers carries its own. */
  ghost predicate Attributed(obs: Observation) {
    |obs.connections| == |obs.replies|
    && (forall i, j :: 0 <= i < j < |obs.connections| ==> LinkKey(obs.connections[i]) != LinkKey(obs.connections[j]))
    && (forall i :: 0 <= i < |obs.connections| ==> obs.connections[i].alias != "local")
    && (forall i, h :: 0 <= i < |obs.connections| && obs.replies[i].Some? && h in obs.replies[i].value.hits ==>
          h.source == obs.connections[i].alias && h.service == obs.connections[i].service && h.community == obs.connections[i].community)
    && forall id :: id in obs.locals ==> IsLocal(obs.locals[id]) && obs.locals[id].fingerprint != ""
  }

  lemma LinkSource(obs: Observation, i: nat, id: string)
    requires Attributed(obs) && i < |obs.connections| && StateAt(obs, i, id).Some?
    ensures var h := StateAt(obs, i, id).value; !IsLocal(h) && SourceKey(h) == LinkKey(obs.connections[i])
  {
    hide StateAt, ValidIdentity;
    LinkSays(obs, i, id);
    var h := StateAt(obs, i, id).value;
    if FoundBy(obs, i, id, h) { assert h in obs.replies[i].value.hits; }
  }

  lemma {:induction false} GroupBefore(obs: Observation, rows: Bases, id: string, n: nat)
    requires Attributed(obs) && n <= |obs.connections|
    ensures OwnSources(GroupUpTo(obs, rows, id, n))
    ensures forall c, i :: c in GroupUpTo(obs, rows, id, n) && !IsLocal(c.hit) && n <= i < |obs.connections| ==>
              SourceKey(c.hit) != LinkKey(obs.connections[i])
    decreases n
  {
    hide StateAt, SourceKey, LinkKey;
    if n > 0 {
      GroupBefore(obs, rows, id, n - 1);
      if StateAt(obs, n - 1, id).Some? { LinkSource(obs, n - 1, id); }
    }
  }

  // ---------- The remote change a query takes ----------

  /** The link shows another text, and its row says it showed the local one before. */
  ghost predicate LinkMovedOn(obs: Observation, rows: Bases, i: nat, id: string, local: string)
    requires i < |obs.connections| == |obs.replies|
  {
    var conn := obs.connections[i];
    StateAt(obs, i, id).Some? && Current(rows, conn, id)
    && var h, row := StateAt(obs, i, id).value, rows[BaseKey(conn.service, conn.community, id)];
       h.fingerprint != local && row.fingerprint == local && h.sequence >= row.sequence
  }

  /** The link shows another text, and its row is missing, or names a text neither side has any more. */
  ghost predicate LinkConflicts(obs: Observation, rows: Bases, i: nat, id: string, local: string)
    requires i < |obs.connections| == |obs.replies|
  {
    var conn := obs.connections[i];
    StateAt(obs, i, id).Some? && StateAt(obs, i, id).value.fingerprint != local
    && (!Current(rows, conn, id)
        || var h, row := StateAt(obs, i, id).value, rows[BaseKey(conn.service, conn.community, id)];
           row.fingerprint == "" || (h.sequence >= row.sequence && row.fingerprint != local && row.fingerprint != h.fingerprint))
  }

  /** The link's row names this text. */
  ghost predicate LinkHad(obs: Observation, rows: Bases, i: nat, id: string, text: string)
    requires i < |obs.connections| == |obs.replies|
  {
    var conn := obs.connections[i];
    StateAt(obs, i, id).Some? && Current(rows, conn, id) && rows[BaseKey(conn.service, conn.community, id)].fingerprint == text
  }

  /** Some link moved on to this text, each that moved on did so to it, none conflicts, none ever had it. */
  ghost predicate Adopted(obs: Observation, rows: Bases, id: string, local: string, text: string)
    requires |obs.connections| == |obs.replies|
  {
    (exists i :: 0 <= i < |obs.connections| && LinkMovedOn(obs, rows, i, id, local))
    && (forall i :: 0 <= i < |obs.connections| && LinkMovedOn(obs, rows, i, id, local) ==> StateAt(obs, i, id).value.fingerprint == text)
    && (forall i :: 0 <= i < |obs.connections| ==> !LinkConflicts(obs, rows, i, id, local) && !LinkHad(obs, rows, i, id, text))
  }

  /** Some link's query found the finding with this text. */
  ghost predicate FoundAnywhere(obs: Observation, id: string, text: string)
    requires |obs.connections| == |obs.replies|
  {
    exists i :: 0 <= i < |obs.connections| && StateAt(obs, i, id).Some?
                && StateAt(obs, i, id).value.fingerprint == text && !StateAt(obs, i, id).value.metadataOnly
  }

  lemma LinkProposes(obs: Observation, rows: Bases, id: string, i: nat, c: Copy, local: string)
    requires Attributed(obs) && i < |obs.connections| && IsLinkCopy(obs, rows, id, i, c) && local != ""
    ensures Proposes(c, local) <==> LinkMovedOn(obs, rows, i, id, local)
    ensures Contradicts(c, local) <==> LinkConflicts(obs, rows, i, id, local)
    ensures forall w :: w != "" ==> (c.base.fingerprint == w <==> LinkHad(obs, rows, i, id, w))
  {
    hide StateAt;
    LinkSource(obs, i, id);
  }

  lemma AdoptedIff(obs: Observation, rows: Bases, id: string, text: string)
    requires Attributed(obs) && id in obs.locals && text != "" && text != obs.locals[id].fingerprint
    ensures Supersedes(GroupOf(obs, rows, id), obs.locals[id].fingerprint, text)
            <==> Adopted(obs, rows, id, obs.locals[id].fingerprint, text)
  {
    hide StateAt, GroupUpTo, Proposes, Contradicts, LinkMovedOn, LinkConflicts, LinkHad;
    var n, group, local := |obs.connections|, GroupOf(obs, rows, id), obs.locals[id].fingerprint;
    GroupMembers(obs, rows, id, n);
    if Supersedes(group, local, text) { SupersededIsAdopted(obs, rows, id, local, text); }
    if Adopted(obs, rows, id, local, text) { AdoptedSupersedes(obs, rows, id, local, text); }
  }

  lemma SupersededIsAdopted(obs: Observation, rows: Bases, id: string, local: string, text: string)
    requires Attributed(obs) && local != "" && text != "" && Supersedes(GroupOf(obs, rows, id), local, text)
    requires id in obs.locals && local == obs.locals[id].fingerprint
    ensures Adopted(obs, rows, id, local, text)
  {
    hide StateAt, GroupUpTo, LinkMovedOn, LinkConflicts, LinkHad, Proposes, Contradicts;
    var n, group := |obs.connections|, GroupOf(obs, rows, id);
    GroupMembers(obs, rows, id, n);
    var c :| c in group && Proposes(c, local);
    LocalDoesNotCount(obs, id, c, local);
    var j :| 0 <= j < n && IsLinkCopy(obs, rows, id, j, c);
    LinkProposes(obs, rows, id, j, c, local);
    forall i | 0 <= i < n
      ensures LinkMovedOn(obs, rows, i, id, local) ==> StateAt(obs, i, id).Some? && StateAt(obs, i, id).value.fingerprint == text
      ensures !LinkConflicts(obs, rows, i, id, local) && !LinkHad(obs, rows, i, id, text)
    {
      if StateAt(obs, i, id).Some? {
        LinkIsMember(obs, rows, id, n, i);
        var d :| d in group && IsLinkCopy(obs, rows, id, i, d);
        LinkProposes(obs, rows, id, i, d, local);
      } else {
        SilentLink(obs, rows, i, id, local, text);
      }
    }
  }

  lemma SilentLink(obs: Observation, rows: Bases, i: nat, id: string, local: string, text: string)
    requires i < |obs.connections| == |obs.replies| && StateAt(obs, i, id).None?
    ensures !LinkMovedOn(obs, rows, i, id, local) && !LinkConflicts(obs, rows, i, id, local) && !LinkHad(obs, rows, i, id, text)
  {
  }

  /** The local copy proposes nothing, conflicts with nothing and has no baseline. */
  lemma LocalDoesNotCount(obs: Observation, id: string, c: Copy, local: string)
    requires Attributed(obs)
    ensures IsLocalCopy(obs, id, c) ==> !Proposes(c, local) && !Contradicts(c, local) && c.base.fingerprint == ""
  {
  }

  lemma AdoptedSupersedes(obs: Observation, rows: Bases, id: string, local: string, text: string)
    requires Attributed(obs) && local != "" && text != "" && Adopted(obs, rows, id, local, text)
    ensures Supersedes(GroupOf(obs, rows, id), local, text)
  {
    hide StateAt, GroupUpTo, LinkMovedOn, LinkConflicts, LinkHad, Proposes, Contradicts;
    var n, group := |obs.connections|, GroupOf(obs, rows, id);
    GroupMembers(obs, rows, id, n);
    var j :| 0 <= j < n && LinkMovedOn(obs, rows, j, id, local);
    if StateAt(obs, j, id).None? { SilentLink(obs, rows, j, id, local, text); }
    LinkIsMember(obs, rows, id, n, j);
    var d :| d in group && IsLinkCopy(obs, rows, id, j, d);
    LinkProposes(obs, rows, id, j, d, local);
    forall c | c in group
      ensures Proposes(c, local) ==> c.hit.fingerprint == text
      ensures !Contradicts(c, local) && c.base.fingerprint != text
    {
      LocalDoesNotCount(obs, id, c, local);
      if !IsLocalCopy(obs, id, c) {
        var i :| 0 <= i < n && IsLinkCopy(obs, rows, id, i, c);
        LinkProposes(obs, rows, id, i, c, local);
      }
    }
  }

  lemma MatchedIff(obs: Observation, rows: Bases, id: string, text: string)
    requires Attributed(obs) && (id in obs.locals ==> text != obs.locals[id].fingerprint)
    ensures Matched(GroupOf(obs, rows, id), text) <==> FoundAnywhere(obs, id, text)
  {
    hide StateAt, GroupUpTo;
    var n, group := |obs.connections|, GroupOf(obs, rows, id);
    GroupMembers(obs, rows, id, n);
    if Matched(group, text) {
      var c :| c in group && c.hit.fingerprint == text && !c.hit.metadataOnly;
      var i :| 0 <= i < n && IsLinkCopy(obs, rows, id, i, c);
    }
    if FoundAnywhere(obs, id, text) {
      var i :| 0 <= i < n && StateAt(obs, i, id).Some? && StateAt(obs, i, id).value.fingerprint == text && !StateAt(obs, i, id).value.metadataOnly;
      LinkIsMember(obs, rows, id, n, i);
    }
  }

  /** What one candidate contributes stands together in the results. */
  lemma {:induction false} AnswerOf(obs: Observation, rows: Bases, candidates: seq<Hit>, results: seq<Hit>, i: nat)
    returns (from: nat, to: nat)
    requires |obs.connections| == |obs.replies| && Answers(obs, rows, candidates, results) && i < |candidates|
    ensures from <= to <= |results| && AnswersOne(obs, rows, candidates[i], results[from..to])
    decreases |candidates|
  {
    hide AnswersOne;
    var n := |candidates| - 1;
    var k :| 0 <= k <= |results| && Answers(obs, rows, candidates[..n], results[..k]) && AnswersOne(obs, rows, candidates[n], results[k..]);
    if i == n {
      from, to := k, |results|;
      assert results[from..to] == results[k..];
    } else {
      from, to := AnswerOf(obs, rows, candidates[..n], results[..k], i);
      assert results[..k][from..to] == results[from..to];
    }
  }

  /** Over a whole query: where a finding has a local copy, another text is shown for it exactly when
      the links' rows and answers adopt that text and a link found it. */
  lemma RemoteChangeIsShown(obs: Observation, rows: Bases, candidates: seq<Hit>, results: seq<Hit>, i: nat, text: string)
    returns (from: nat, to: nat)
    requires Attributed(obs) && Answers(obs, rows, candidates, results) && i < |candidates|
    requires var c := candidates[i]; ValidIdentity(c.finding, c.fingerprint) && c.finding in obs.locals
                                     && text != "" && text != obs.locals[c.finding].fingerprint
    ensures from <= to <= |results| && to - from <= 1
    ensures var id := candidates[i].finding;
            to - from == 1 && results[from].fingerprint == text
            <==> Adopted(obs, rows, id, obs.locals[id].fingerprint, text) && FoundAnywhere(obs, id, text)
    ensures to - from == 1 && results[from].fingerprint == text ==> results[from].resolution == RemoteChanged && results[from].contentDiffers
  {
    hide Answers, GroupUpTo, Adopted, FoundAnywhere, IsResolution, Sort, CopyBefore, ValidIdentity, Supersedes, OwnSources;
    from, to := AnswerOf(obs, rows, candidates, results, i);
    var id, n := candidates[i].finding, |obs.connections|;
    var mine := Copy(obs.locals[id], Base("", 0));
    var shown := results[from..to];
    LocalIsMember(obs, rows, id, n);
    GroupBefore(obs, rows, id, n);
    LocalsAreLocal(obs, id);
    RemoteReplacesLocalIff(id, GroupOf(obs, rows, id), mine, if shown == [] then None else Some(shown[0]), text);
    AdoptedIff(obs, rows, id, text);
    MatchedIff(obs, rows, id, text);
  }

  lemma LocalsAreLocal(obs: Observation, id: string)
    requires Attributed(obs) && id in obs.locals
    ensures IsLocal(obs.locals[id]) && obs.locals[id].fingerprint != ""
  {
  }

  // ---------- What a query stores ----------

  /** The local copy and every link that answers have this text of the finding. */
  ghost predicate EverybodyHas(obs: Observation, id: string, text: string) {
    WellFormed(obs) && id in obs.ids && id in obs.locals && text != "" && obs.locals[id].fingerprint == text
    && forall i :: 0 <= i < |obs.connections| && StateAt(obs, i, id).Some? ==> StateAt(obs, i, id).value.fingerprint == text
  }

  /** A link of the row's community answers with this sequence, and its lock was free. */
  ghost predicate WritesTo(obs: Observation, locks: seq<bool>, j: nat, k: BaseKey, sequence: int)
    requires j < |obs.connections| == |obs.replies| == |locks|
  {
    locks[j] && obs.connections[j].service == k.service && obs.connections[j].community == k.community
    && StateAt(obs, j, k.id).Some? && StateAt(obs, j, k.id).value.sequence == sequence
  }

  lemma {:induction false} StoreAllRow(rows: Bases, conn: Connection, entries: seq<KnowledgeEntry>, id: string, text: string, sequence: int)
    requires forall e :: e in entries && e.id == id ==> e == KnowledgeEntry(id, text, sequence)
    ensures var k, now := KeyFor(conn, id), StoreAll(rows, conn, entries);
            if KnowledgeEntry(id, text, sequence) in entries && !UpToDate(rows, k, sequence)
            then k in now && now[k] == BaseRow(text, sequence, KNOWLEDGE_FORMAT)
            else (k in now <==> k in rows) && (k in rows ==> now[k] == rows[k])
    decreases |entries|
  {
    if entries != [] {
      var n := |entries| - 1;
      assert entries == entries[..n] + [entries[n]];
      assert entries[n] in entries;
      StoreAllRow(rows, conn, entries[..n], id, text, sequence);
    }
  }

  lemma {:induction false} AgreementEntries(obs: Observation, rows: Bases, i: nat, n: nat, id: string)
    requires WellFormed(obs) && i < |obs.connections| && n <= |obs.ids|
    ensures forall e :: e in Agreements(obs, rows, i, n) && e.id == id ==> AgreesAt(obs, rows, i, id) && e == EntryAt(obs, i, id)
    ensures (exists k :: 0 <= k < n && obs.ids[k] == id) && AgreesAt(obs, rows, i, id) ==> EntryAt(obs, i, id) in Agreements(obs, rows, i, n)
    decreases n
  {
    hide StateAt;
    if n > 0 { AgreementEntries(obs, rows, i, n - 1, id); }
  }

  /** The entry a link with the common text stores, unless its row has that text and sequence already. */
  lemma SettledEntry(obs: Observation, rows: Bases, i: nat, id: string, text: string)
    requires EverybodyHas(obs, id, text) && i < |obs.connections|
    ensures forall e :: e in SettledAt(obs, rows, i) && e.id == id ==>
              StateAt(obs, i, id).Some? && e == KnowledgeEntry(id, text, StateAt(obs, i, id).value.sequence)
    ensures StateAt(obs, i, id).Some? ==>
              var conn, sequence := obs.connections[i], StateAt(obs, i, id).value.sequence;
              KnowledgeEntry(id, text, sequence) in SettledAt(obs, rows, i)
              || (Current(rows, conn, id) && rows[KeyFor(conn, id)].fingerprint == text && rows[KeyFor(conn, id)].sequence >= sequence)
  {
    hide StateAt, GroupUpTo, Agreements, Settled;
    var all := Agreements(obs, rows, i, |obs.ids|);
    AgreementEntries(obs, rows, i, |obs.ids|, id);
    SettledIds(obs, rows, all);
    EverybodySame(obs, rows, id, text);
    var k :| 0 <= k < |obs.ids| && obs.ids[k] == id;
    forall e | e in Settled(obs, rows, all) && e.id == id ensures e in all {
      var j :| 0 <= j < |Settled(obs, rows, all)| && Settled(obs, rows, all)[j] == e;
    }
  }

  lemma EverybodySame(obs: Observation, rows: Bases, id: string, text: string)
    requires EverybodyHas(obs, id, text)
    ensures AllSame(GroupOf(obs, rows, id), text)
  {
    hide StateAt, GroupUpTo;
    var n, group := |obs.connections|, GroupOf(obs, rows, id);
    GroupMembers(obs, rows, id, n);
    forall k | 0 <= k < |group| ensures group[k].hit.fingerprint == text {
      assert group[k] in group;
    }
  }

  /** After the first `n` links: no current row falls, whatever changed has the common text, and every
      link that could write left the row at its sequence or later. */
  ghost predicate RowAfter(obs: Observation, rows: Bases, locks: seq<bool>, k: BaseKey, text: string, n: nat)
    requires n <= |obs.connections| == |obs.replies| == |locks|
  {
    var now := StoredUpTo(obs, rows, locks, n);
    var was := k in rows && rows[k].format == KNOWLEDGE_FORMAT;
    (was ==> k in now && now[k].format == KNOWLEDGE_FORMAT && now[k].sequence >= rows[k].sequence)
    && (k in now && now[k].format == KNOWLEDGE_FORMAT && now[k].fingerprint != text ==> was && now[k] == rows[k])
    && (forall j, q :: 0 <= j < n && WritesTo(obs, locks, j, k, q) ==>
          k in now && now[k].format == KNOWLEDGE_FORMAT && now[k].sequence >= q)
    && (was && (forall j, q :: 0 <= j < n && WritesTo(obs, locks, j, k, q) ==> q <= rows[k].sequence) ==> now[k] == rows[k])
  }

  lemma {:induction false} RowFollows(obs: Observation, rows: Bases, locks: seq<bool>, k: BaseKey, text: string, n: nat)
    requires EverybodyHas(obs, k.id, text) && n <= |obs.connections| == |locks|
    ensures RowAfter(obs, rows, locks, k, text, n)
    decreases n
  {
    hide StateAt, SettledAt, StoreAll, EverybodyHas;
    if n > 0 {
      RowFollows(obs, rows, locks, k, text, n - 1);
      RowStep(obs, rows, locks, k, text, n);
    }
  }

  lemma RowStep(obs: Observation, rows: Bases, locks: seq<bool>, k: BaseKey, text: string, n: nat)
    requires EverybodyHas(obs, k.id, text) && 0 < n <= |obs.connections| == |locks| && RowAfter(obs, rows, locks, k, text, n - 1)
    ensures RowAfter(obs, rows, locks, k, text, n)
  {
    hide StateAt, SettledAt, StoreAll, EverybodyHas;
    EverybodyFits(obs, k.id, text);
    var conn, before := obs.connections[n - 1], StoredUpTo(obs, rows, locks, n - 1);
    if locks[n - 1] {
      SettledEntry(obs, rows, n - 1, k.id, text);
      if conn.service == k.service && conn.community == k.community {
        assert KeyFor(conn, k.id) == k;
        var q := if StateAt(obs, n - 1, k.id).Some? then StateAt(obs, n - 1, k.id).value.sequence else 0;
        StoreAllRow(before, conn, SettledAt(obs, rows, n - 1), k.id, text, q);
        assert StateAt(obs, n - 1, k.id).Some? ==> WritesTo(obs, locks, n - 1, k, q);
      } else {
        StoredElsewhere(before, conn, SettledAt(obs, rows, n - 1), k);
      }
    }
  }

  lemma EverybodyFits(obs: Observation, id: string, text: string)
    requires EverybodyHas(obs, id, text)
    ensures WellFormed(obs)
  {
  }

  /** Where everybody has the same text, every link that could write leaves its row in the current
      format at the sequence it answered or later; and with that text, exactly unless the row already
      held another text at a sequence that no writing link of that community has passed. */
  lemma AgreementIsStored(obs: Observation, rows: Bases, locks: seq<bool>, id: string, text: string, i: nat)
    requires EverybodyHas(obs, id, text) && i < |obs.connections| == |locks| && locks[i] && StateAt(obs, i, id).Some?
    ensures var k, now := BaseKey(obs.connections[i].service, obs.connections[i].community, id), StoredBy(obs, rows, locks);
            k in now && now[k].format == KNOWLEDGE_FORMAT && now[k].sequence >= StateAt(obs, i, id).value.sequence
            && (now[k].fingerprint != text <==>
                  k in rows && rows[k].format == KNOWLEDGE_FORMAT && rows[k].fingerprint != text
                  && forall j, q :: 0 <= j < |locks| && WritesTo(obs, locks, j, k, q) ==> q <= rows[k].sequence)
  {
    hide StateAt, StoredUpTo;
    var k := BaseKey(obs.connections[i].service, obs.connections[i].community, id);
    RowFollows(obs, rows, locks, k, text, |obs.connections|);
    assert WritesTo(obs, locks, i, k, StateAt(obs, i, id).value.sequence);
  }

  /** An index that is behind its own baseline: everybody has the text, and the row keeps another. */
  lemma BehindKeepsItsRow(conn: Connection, id: string, text: string, other: string, local: Hit)
    requires ValidIdentity(id, text) && text != other && local.fingerprint == text
    ensures var obs := Observation([id], map[id := local], [conn], [Some(Reply([KnowledgeEntry(id, text, 1)], []))]);
            var k := KeyFor(conn, id); var rows := map[k := BaseRow(other, 2, KNOWLEDGE_FORMAT)];
            EverybodyHas(obs, id, text) && k in StoredBy(obs, rows, [true]) && StoredBy(obs, rows, [true])[k].fingerprint == other
  {
    var obs := Observation([id], map[id := local], [conn], [Some(Reply([KnowledgeEntry(id, text, 1)], []))]);
    var k := KeyFor(conn, id);
    var rows := map[k := BaseRow(other, 2, KNOWLEDGE_FORMAT)];
    assert |text| == 64;
    assert StateAt(obs, 0, id) == Some(CheckedHit(KnowledgeEntry(id, text, 1), conn));
    hide State, StateFrom, StoredUpTo;
    assert EverybodyHas(obs, id, text);
    AgreementIsStored(obs, rows, [true], id, text, 0);
    RowFollows(obs, rows, [true], k, text, 1);
  }
}

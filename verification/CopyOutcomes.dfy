/** What a query shows of a finding, told by its copies' own fields: which text, why, and with which
  variants. Nothing here names how the decision is computed.
 */
module CopyOutcomes {
  import opened CopyBases
  import opened CopyReconciliation
  import opened Ordering

  /** Some copy with this text was found by the query, not just compared. */
  ghost predicate Matched(given: seq<Copy>, text: string) {
    exists c :: c in given && c.hit.fingerprint == text && !c.hit.metadataOnly
  }

  ghost predicate TextsDiffer(given: seq<Copy>) {
    exists a, b :: a in given && b in given && a.hit.fingerprint != b.hit.fingerprint
  }

  /** A copy's hit, with everything that resolving adds taken from `v`. */
  function Dressed(h: Hit, v: Hit): Hit {
    h.(locations := v.locations, otherCopies := v.otherCopies, resolution := v.resolution, contentDiffers := v.contentDiffers)
  }

  /** Not presented before: local copies come first, the rest in order of service, community and name. */
  predicate NotBefore(a: Hit, b: Hit) {
    (IsLocal(a) ==> IsLocal(b))
    && (IsLocal(a) == IsLocal(b) ==> !Less(a.service + "\0" + a.community + "\0" + a.source, b.service + "\0" + b.community + "\0" + b.source))
  }

  /** Of the found copies with its text none comes before it. */
  ghost predicate ComesFirst(given: seq<Copy>, v: Hit) {
    forall c :: c in given && c.hit.fingerprint == v.fingerprint && !c.hit.metadataOnly ==> NotBefore(c.hit, v)
  }

  /** The result is the first found copy with this text, if there is one, for this reason. */
  ghost predicate Shows(given: seq<Copy>, result: Option<Hit>, text: string, reason: Reason) {
    (result.Some? <==> Matched(given, text))
    && (result.Some? ==>
          var v := result.value;
          v.fingerprint == text && v.resolution == reason && (v.contentDiffers <==> TextsDiffer(given))
          && ComesFirst(given, v) && exists c :: c in given && c.hit.fingerprint == text && !c.hit.metadataOnly && v == Dressed(c.hit, v))
  }

  /** A variant is a copy with its text, the first found one if there is one. */
  ghost predicate IsVariantOf(given: seq<Copy>, v: Hit) {
    (exists c :: c in given && c.hit.fingerprint == v.fingerprint && v == c.hit.(locations := v.locations))
    && (!v.metadataOnly <==> Matched(given, v.fingerprint)) && (!v.metadataOnly ==> ComesFirst(given, v))
  }

  /** Nobody's text is preferred: one variant for each text, in order. */
  ghost predicate ShowsAll(id: string, given: seq<Copy>, result: Option<Hit>) {
    (result.Some? <==> exists c :: c in given && !c.hit.metadataOnly)
    && (result.Some? ==>
          var v := result.value;
          v.source == "multiple" && v.finding == id && v.fingerprint == "" && v.resolution == CommunityVariants && v.contentDiffers
          && (forall i :: 0 <= i < |v.variants| ==> IsVariantOf(given, v.variants[i]))
          && (forall i, j :: 0 <= i < j < |v.variants| ==> Less(v.variants[i].fingerprint, v.variants[j].fingerprint))
          && forall c :: c in given ==> HasText(v.variants, c.hit.fingerprint))
  }

  ghost predicate HasText(variants: seq<Hit>, text: string) {
    exists i :: 0 <= i < |variants| && variants[i].fingerprint == text
  }

  /** Why a local text stays although others differ: a link has no baseline; histories conflict; a
      link's index is behind what it showed before; or only the local text moved on. */
  ghost function StaysBecause(given: seq<Copy>, local: string): Reason {
    if exists c :: c in given && Rivals(c, local) && c.base.fingerprint == "" then NoBaseline
    else if exists c :: c in given && Contradicts(c, local) then Diverged
    else if exists a, b :: a in given && b in given && Proposes(a, local) && Proposes(b, local) && a.hit.fingerprint != b.hit.fingerprint
    then Diverged
    else if exists a, b :: a in given && b in given && Proposes(a, local) && b.base.fingerprint == a.hit.fingerprint then Diverged
    else if exists c :: c in given && Rivals(c, local) && c.base.fingerprint != "" && c.hit.sequence < c.base.sequence then IndexBehind
    else LocalChanged
  }

  // ---------- What is shown for a text ----------

  ghost predicate InOrder(copies: seq<Copy>) { forall i, j :: 0 <= i < j < |copies| ==> NotBefore(copies[j].hit, copies[i].hit) }

  ghost predicate HitsInOrder(hits: seq<Hit>) { forall i, j :: 0 <= i < j < |hits| ==> NotBefore(hits[j], hits[i]) }

  lemma AscendingIsInOrder(copies: seq<Copy>)
    requires Ascending(copies, CopyBefore())
    ensures InOrder(copies)
  {
    hide Less;
  }

  lemma {:induction false} WithHashInOrder(copies: seq<Copy>, hash: string)
    requires InOrder(copies)
    ensures HitsInOrder(WithHash(copies, hash))
    decreases |copies|
  {
    hide NotBefore;
    if copies != [] {
      var n := |copies| - 1;
      WithHashInOrder(copies[..n], hash);
      WithHashMembers(copies[..n], hash);
      var hits := WithHash(copies[..n], hash);
      forall i | 0 <= i < |hits| ensures NotBefore(copies[n].hit, hits[i]) {
        assert hits[i] in hits;
        var c :| c in copies[..n] && c.hit == hits[i];
        var k :| 0 <= k < n && copies[..n][k] == c;
        assert copies[k].hit == hits[i];
      }
      var all := WithHash(copies, hash);
      forall i, j | 0 <= i < j < |all| ensures NotBefore(all[j], all[i]) {
        assert all == hits || all == hits + [copies[n].hit];
        assert all[i] == hits[i];
        if j < |hits| {
          assert all[j] == hits[j] && NotBefore(hits[j], hits[i]);
        } else {
          assert all[j] == copies[n].hit && NotBefore(copies[n].hit, hits[i]);
        }
      }
    }
  }

  lemma {:induction false} FirstShownFirst(hits: seq<Hit>)
    requires hits != [] && HitsInOrder(hits)
    ensures forall h :: h in hits && !h.metadataOnly ==> h == FirstShown(hits) || NotBefore(h, FirstShown(hits))
  {
    hide NotBefore;
    assert hits == [hits[0]] + hits[1..];
    if hits[0].metadataOnly && |hits| > 1 {
      forall i, j | 0 <= i < j < |hits[1..]| ensures NotBefore(hits[1..][j], hits[1..][i]) {
        assert NotBefore(hits[j + 1], hits[i + 1]);
      }
      FirstShownFirst(hits[1..]);
    } else {
      forall h | h in hits && !h.metadataOnly ensures h == hits[0] || NotBefore(h, hits[0]) {
        var k :| 0 <= k < |hits| && hits[k] == h;
      }
    }
  }

  lemma FirstOfText(given: seq<Copy>, copies: seq<Copy>, hash: string)
    requires (forall c :: c in given <==> c in copies) && InOrder(copies) && WithHash(copies, hash) != []
    ensures var v := Variant(WithHash(copies, hash)); v.fingerprint == hash && ComesFirst(given, v)
  {
    hide WithHash, LocationsOf, FirstShown, NotBefore, InOrder;
    var hits := WithHash(copies, hash);
    VariantShows(copies, hash);
    WithHashMembers(copies, hash);
    WithHashInOrder(copies, hash);
    FirstShownFirst(hits);
    var v := Variant(hits);
    forall c | c in given && c.hit.fingerprint == hash && !c.hit.metadataOnly ensures NotBefore(c.hit, v) {
      assert c.hit in hits;
      SamePlaceInOrder(c.hit, FirstShown(hits), v);
    }
  }

  lemma SamePlaceInOrder(a: Hit, b: Hit, v: Hit)
    requires v.source == b.source && v.service == b.service && v.community == b.community && (a == b || NotBefore(a, b))
    ensures NotBefore(a, v)
  {
    hide Less;
    if a == b {
      var key := b.service + "\0" + b.community + "\0" + b.source;
      if Less(key, key) { LessIsStrict(key, key); }
    }
  }

  lemma ShownFor(given: seq<Copy>, copies: seq<Copy>, hash: string)
    requires (forall c :: c in given <==> c in copies) && InOrder(copies) && WithHash(copies, hash) != []
    ensures var v := Variant(WithHash(copies, hash));
            v.fingerprint == hash && IsVariantOf(given, v)
            && (!v.metadataOnly ==> exists c :: c in given && c.hit.fingerprint == hash && !c.hit.metadataOnly && v == c.hit.(locations := v.locations))
  {
    hide WithHash, LocationsOf, FirstShown, NotBefore, InOrder;
    VariantShows(copies, hash);
    WithHashMembers(copies, hash);
    FirstShownIn(WithHash(copies, hash));
    FirstOfText(given, copies, hash);
    var h := FirstShown(WithHash(copies, hash));
    var c :| c in copies && c.hit == h;
    assert Variant(WithHash(copies, hash)) == c.hit.(locations := Variant(WithHash(copies, hash)).locations);
  }

  lemma DifferIff(given: seq<Copy>)
    ensures |Hashes(given)| > 1 <==> TextsDiffer(given)
  {
    if |Hashes(given)| > 1 {
      var a :| a in Hashes(given);
      assert Hashes(given) != {a};
      var b :| b in Hashes(given) && b != a;
    } else if TextsDiffer(given) {
      var a, b :| a in given && b in given && a.hit.fingerprint != b.hit.fingerprint;
      assert a.hit.fingerprint in Hashes(given) && b.hit.fingerprint in Hashes(given);
      OnlyOne(Hashes(given), a.hit.fingerprint);
    }
  }

  lemma SameHashes(given: seq<Copy>, copies: seq<Copy>)
    requires forall c :: c in given <==> c in copies
    ensures Hashes(given) == Hashes(copies)
  {
  }

  /** Whatever text is decided on, that is what is shown. */
  lemma DecidedIsShown(id: string, given: seq<Copy>, copies: seq<Copy>, result: Option<Hit>)
    requires (forall c :: c in given <==> c in copies) && InOrder(copies) && IsResolution(id, copies, result) && Decide(copies).winner != ""
    ensures Shows(given, result, Decide(copies).winner, Decide(copies).reason)
  {
    hide WithHash, Variant, Others, Decide, Hashes, IsHashList, Variants, Less, InOrder, NotBefore;
    ShownFor(given, copies, Decide(copies).winner);
    SameHashes(given, copies);
    DifferIff(given);
    if result.Some? { SameComesFirst(given, Variant(WithHash(copies, Decide(copies).winner)), result.value); }
  }

  lemma SameComesFirst(given: seq<Copy>, v: Hit, w: Hit)
    requires ComesFirst(given, v)
    requires w.fingerprint == v.fingerprint && w.source == v.source && w.service == v.service && w.community == v.community
    ensures ComesFirst(given, w)
  {
    hide Less;
  }

  // ---------- The three cases ----------

  lemma Sorted(given: seq<Copy>) returns (copies: seq<Copy>)
    ensures copies == Sort(given, CopyBefore()) && InOrder(copies) && forall c :: c in given <==> c in copies
  {
    hide Sort, CopyBefore, InOrder;
    CopyBeforeIsStrict();
    copies := Sort(given, CopyBefore());
    SortIs(given, CopyBefore());
    SameCopies(given, copies);
    AscendingIsInOrder(copies);
  }

  /** All copies agree: their text, and no reason. */
  lemma AgreedGroup(id: string, given: seq<Copy>, result: Option<Hit>, text: string)
    requires IsResolution(id, Sort(given, CopyBefore()), result)
    requires given != [] && text != "" && forall c :: c in given ==> c.hit.fingerprint == text
    ensures Shows(given, result, text, NoReason)
  {
    hide IsResolution, Sort, CopyBefore, Shows, InOrder;
    var copies := Sorted(given);
    assert given[0] in given;
    assert Hashes(copies) == {text} by { AllOneText(given, copies, text); }
    assert Decide(copies) == Decision(text, NoReason);
    DecidedIsShown(id, given, copies, result);
  }

  lemma AllOneText(given: seq<Copy>, copies: seq<Copy>, text: string)
    requires given != [] && (forall c :: c in given ==> c.hit.fingerprint == text) && forall c :: c in given <==> c in copies
    ensures Hashes(copies) == {text}
  {
    assert given[0] in copies;
  }

  /** Copies differ and none is local: nobody decides between them. */
  lemma GroupWithoutLocal(id: string, given: seq<Copy>, result: Option<Hit>)
    requires IsResolution(id, Sort(given, CopyBefore()), result)
    requires TextsDiffer(given) && forall c :: c in given ==> !IsLocal(c.hit)
    ensures ShowsAll(id, given, result)
  {
    hide IsResolution, Sort, CopyBefore, ShowsAll, InOrder;
    var copies := Sorted(given);
    SameHashes(given, copies);
    DifferIff(given);
    NoLocalHit(copies);
    assert Decide(copies) == Decision("", NoReason);
    UndecidedShowsAll(id, given, copies, result);
  }

  lemma {:induction false} NoLocalHit(copies: seq<Copy>)
    requires forall c :: c in copies ==> !IsLocal(c.hit)
    ensures LocalHit(copies) == None
    decreases |copies|
  {
    if copies != [] {
      assert copies[|copies| - 1] in copies;
      NoLocalHit(copies[..|copies| - 1]);
    }
  }

  lemma UndecidedShowsAll(id: string, given: seq<Copy>, copies: seq<Copy>, result: Option<Hit>)
    requires (forall c :: c in given <==> c in copies) && InOrder(copies) && IsResolution(id, copies, result) && Decide(copies).winner == ""
    ensures ShowsAll(id, given, result)
  {
    hide WithHash, Variant, Others, Decide, Hashes, Less, Variants, IsVariantOf, HasText, IsHashList, InOrder;
    var hashes :| IsHashList(copies, hashes) && (forall h :: h in hashes ==> WithHash(copies, h) != [])
                  && result == if exists k :: 0 <= k < |Variants(copies, hashes)| && !Variants(copies, hashes)[k].metadataOnly
                               then Some(Grouped(id, Variants(copies, hashes))) else None;
    VariantsAre(given, copies, hashes);
    HashesInOrder(copies, hashes);
    EachTextHasVariant(given, copies, hashes);
    VariantMatchesIff(given, copies, hashes);
  }

  lemma HashesInOrder(copies: seq<Copy>, hashes: seq<string>)
    requires IsHashList(copies, hashes)
    ensures forall i, j :: 0 <= i < j < |hashes| ==> Less(hashes[i], hashes[j])
  {
    hide Less;
  }

  lemma {:induction false} VariantsAre(given: seq<Copy>, copies: seq<Copy>, hashes: seq<string>)
    requires (forall c :: c in given <==> c in copies) && InOrder(copies) && forall h :: h in hashes ==> WithHash(copies, h) != []
    ensures |Variants(copies, hashes)| == |hashes|
    ensures forall i :: 0 <= i < |hashes| ==> Variants(copies, hashes)[i].fingerprint == hashes[i] && IsVariantOf(given, Variants(copies, hashes)[i])
    decreases |hashes|
  {
    hide WithHash, Variant, IsVariantOf, InOrder;
    if hashes != [] {
      var n := |hashes| - 1;
      VariantsAre(given, copies, hashes[..n]);
      ShownFor(given, copies, hashes[n]);
    }
  }

  lemma EachTextHasVariant(given: seq<Copy>, copies: seq<Copy>, hashes: seq<string>)
    requires (forall c :: c in given <==> c in copies) && InOrder(copies) && IsHashList(copies, hashes) && forall h :: h in hashes ==> WithHash(copies, h) != []
    ensures forall c :: c in given ==> HasText(Variants(copies, hashes), c.hit.fingerprint)
  {
    hide WithHash, Variant, Less, Variants, IsVariantOf, InOrder;
    VariantsAre(given, copies, hashes);
    var vs := Variants(copies, hashes);
    forall c | c in given ensures HasText(vs, c.hit.fingerprint) {
      assert c.hit.fingerprint in Hashes(copies);
      var i :| 0 <= i < |hashes| && hashes[i] == c.hit.fingerprint;
      assert vs[i].fingerprint == c.hit.fingerprint;
    }
  }

  lemma VariantMatchesIff(given: seq<Copy>, copies: seq<Copy>, hashes: seq<string>)
    requires (forall c :: c in given <==> c in copies) && InOrder(copies) && IsHashList(copies, hashes) && forall h :: h in hashes ==> WithHash(copies, h) != []
    ensures var vs := Variants(copies, hashes);
            (exists k :: 0 <= k < |vs| && !vs[k].metadataOnly) <==> exists c :: c in given && !c.hit.metadataOnly
  {
    hide WithHash, Variant, Less, Variants, IsHashList, InOrder, ComesFirst;
    VariantsAre(given, copies, hashes);
    EachTextHasVariant(given, copies, hashes);
    var vs := Variants(copies, hashes);
    if k :| 0 <= k < |vs| && !vs[k].metadataOnly {
      assert Matched(given, vs[k].fingerprint);
    }
    if c :| c in given && !c.hit.metadataOnly {
      var i :| 0 <= i < |vs| && vs[i].fingerprint == c.hit.fingerprint;
      assert Matched(given, vs[i].fingerprint);
    }
  }

  /** Copies differ and one is local: a text that supersedes it is shown if there is one, else its own. */
  lemma GroupWithLocal(id: string, given: seq<Copy>, mine: Copy, result: Option<Hit>)
    requires IsResolution(id, Sort(given, CopyBefore()), result) && OwnSources(given)
    requires TextsDiffer(given) && mine in given && IsLocal(mine.hit) && forall c :: c in given ==> c.hit.fingerprint != ""
    ensures var local := mine.hit.fingerprint;
            if exists w :: w != local && Supersedes(given, local, w)
            then exists w :: w != local && Supersedes(given, local, w) && Shows(given, result, w, RemoteChanged)
            else Shows(given, result, local, StaysBecause(given, local))
  {
    hide IsResolution, Sort, CopyBefore, Shows, Supersedes, StaysBecause, DecideLocal, InOrder;
    var local := mine.hit.fingerprint;
    var copies := Sorted(given);
    SameHashes(given, copies);
    DifferIff(given);
    OnlyLocal(copies, mine);
    var d := Decide(copies);
    assert d == DecideLocal(copies, local);
    WinnerPresent(copies, mine.hit);
    assert d.winner != "" by { TextPresent(given, copies, d.winner); }
    DecidedIsShown(id, given, copies, result);
    if d.winner != local {
      DecidesRemoteIff(copies, local, d.winner);
      SameSuperseded(given, copies, local, d.winner);
    } else {
      forall w | w != local ensures !Supersedes(given, local, w) {
        DecidesRemoteIff(copies, local, w);
        SameSuperseded(given, copies, local, w);
      }
      KeptReason(copies, local);
      SameStays(given, copies, local);
    }
  }

  lemma TextPresent(given: seq<Copy>, copies: seq<Copy>, text: string)
    requires (forall c :: c in given <==> c in copies) && text in Hashes(copies) && forall c :: c in given ==> c.hit.fingerprint != ""
    ensures text != ""
  {
  }

  lemma SameStays(given: seq<Copy>, copies: seq<Copy>, local: string)
    requires forall c :: c in given <==> c in copies
    ensures StaysBecause(given, local) == StaysBecause(copies, local)
  {
    hide Proposes, Contradicts, Rivals;
  }

  lemma ReasonsMean(copies: seq<Copy>, local: string)
    ensures NoBaseline in Reasons(copies, local) <==> exists c :: c in copies && Rivals(c, local) && c.base.fingerprint == ""
    ensures IndexBehind in Reasons(copies, local)
            <==> exists c :: c in copies && Rivals(c, local) && c.base.fingerprint != "" && c.hit.sequence < c.base.sequence
  {
    if c :| c in copies && Rivals(c, local) && c.base.fingerprint == "" { assert Verdict(c, local).1 == NoBaseline; }
    if c :| c in copies && Rivals(c, local) && c.base.fingerprint != "" && c.hit.sequence < c.base.sequence {
      assert Verdict(c, local).1 == IndexBehind;
    }
  }

  ghost predicate TwoProposed(copies: seq<Copy>, local: string) {
    exists a, b :: a in copies && b in copies && Proposes(a, local) && Proposes(b, local) && a.hit.fingerprint != b.hit.fingerprint
  }

  lemma SeveralProposed(copies: seq<Copy>, local: string)
    requires local != ""
    ensures |Proposed(copies, local)| > 1 <==> TwoProposed(copies, local)
    ensures |Proposed(copies, local)| == 0 <==> forall c :: c in copies ==> !Proposes(c, local)
  {
    hide Proposed, Proposes;
    ProposedAre(copies, local);
    var all := Proposed(copies, local);
    if |all| > 1 {
      var x :| x in all;
      assert all != {x};
      var y :| y in all && y != x;
      var a :| a in copies && Proposes(a, local) && a.hit.fingerprint == x;
      var b :| b in copies && Proposes(b, local) && b.hit.fingerprint == y;
    } else if TwoProposed(copies, local) {
      var a, b :| a in copies && b in copies && Proposes(a, local) && Proposes(b, local) && a.hit.fingerprint != b.hit.fingerprint;
      OnlyOne(all, a.hit.fingerprint);
    }
  }

  /** The reason that comes with a local text that stays. */
  lemma KeptReason(copies: seq<Copy>, local: string)
    requires local != "" && DecideLocal(copies, local).winner == local
    ensures DecideLocal(copies, local).reason == StaysBecause(copies, local)
  {
    hide Reasons, Proposed;
    ReasonsMean(copies, local);
    ProposedAre(copies, local);
    ContradictionReasons(copies, local);
    SeveralProposed(copies, local);
    hide Proposes, Contradicts;
    NotProposed(copies, local);
  }

  lemma NotProposed(copies: seq<Copy>, local: string)
    ensures local !in Proposed(copies, local)
  {
  }
}

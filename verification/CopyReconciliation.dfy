/** One winner for each finding, from a local copy, remote copies and the baselines between them. */
module CopyReconciliation {
  import opened CopyBases
  import opened Ordering

  datatype Location = Location(source: string, service: string, community: string, finding: string, fingerprint: string,
                               path: string, url: string)

  datatype Reason = NoReason | IndexBehind | NoBaseline | RemoteChanged | LocalChanged | Diverged | CommunityVariants

  /** `text` stands for everything a result shows of a finding. */
  datatype Hit = Hit(source: string, service: string, community: string, finding: string, fingerprint: string, path: string,
                     url: string, text: string, sequence: int, metadataOnly: bool, locations: seq<Location>,
                     otherCopies: seq<Location>, resolution: Reason, contentDiffers: bool, variants: seq<Hit>)

  datatype Copy = Copy(hit: Hit, base: Base)

  datatype Option<T> = None | Some(value: T)

  predicate IsLocal(h: Hit) { h.source == "local" }

  // ---------- Presentation order ----------

  function SourceKey(h: Hit): string { h.service + "\0" + h.community + "\0" + h.source }

  predicate HitBefore(a: Hit, b: Hit) {
    if IsLocal(a) != IsLocal(b) then IsLocal(a) else Less(SourceKey(a), SourceKey(b))
  }

  function CopyBefore(): (Copy, Copy) -> bool { (a: Copy, b: Copy) => HitBefore(a.hit, b.hit) }

  lemma LessIsWeak(a: string, b: string, c: string)
    requires Less(a, b)
    ensures Less(a, c) || Less(c, b)
  {
    LessIsTotal(c, b);
    if c != b && Less(b, c) { LessIsTransitive(a, b, c); }
  }

  lemma CopyBeforeIsStrict()
    ensures StrictOrder(CopyBefore())
  {
    hide Less;
    forall x: Copy, y: Copy | CopyBefore()(x, y) ensures !CopyBefore()(y, x) {
      LessIsStrict(SourceKey(x.hit), SourceKey(y.hit));
    }
    forall x: Copy, y: Copy, z: Copy | CopyBefore()(x, y) && CopyBefore()(y, z) ensures CopyBefore()(x, z) {
      if IsLocal(x.hit) == IsLocal(y.hit) == IsLocal(z.hit) {
        LessIsTransitive(SourceKey(x.hit), SourceKey(y.hit), SourceKey(z.hit));
      }
    }
    forall x: Copy, y: Copy, z: Copy | CopyBefore()(x, y) ensures CopyBefore()(x, z) || CopyBefore()(z, y) {
      if IsLocal(x.hit) == IsLocal(y.hit) {
        LessIsWeak(SourceKey(x.hit), SourceKey(y.hit), SourceKey(z.hit));
      }
    }
  }

  /** Every copy comes from a source of its own, so at most one is local. */
  ghost predicate OwnSources(copies: seq<Copy>) {
    (forall x, y :: x in copies && y in copies && x != y ==>
       !(IsLocal(x.hit) && IsLocal(y.hit)) && (IsLocal(x.hit) || IsLocal(y.hit) || SourceKey(x.hit) != SourceKey(y.hit)))
  }

  lemma OwnSourcesSeparate(copies: seq<Copy>)
    requires OwnSources(copies)
    ensures Separates(copies, CopyBefore())
  {
    forall x, y | x in copies && y in copies && x != y ensures CopyBefore()(x, y) || CopyBefore()(y, x) {
      LessIsTotal(SourceKey(x.hit), SourceKey(y.hit));
    }
  }

  // ---------- The choice between one local and one remote copy ----------

  datatype Choice = Equal | KeepLocal | TakeRemote

  function CopyChoice(local: string, remote: string, sequence: int, base: Base): (Choice, Reason) {
    if local == remote then (Equal, NoReason)
    else if base.fingerprint != "" && sequence < base.sequence then (KeepLocal, IndexBehind)
    else if base.fingerprint == "" then (KeepLocal, NoBaseline)
    else if local == base.fingerprint then (TakeRemote, RemoteChanged)
    else if remote == base.fingerprint then (KeepLocal, LocalChanged)
    else (KeepLocal, Diverged)
  }

  // ---------- What a group of copies comes to ----------

  ghost function Hashes(copies: seq<Copy>): set<string> { set c | c in copies :: c.hit.fingerprint }

  function LocalHit(copies: seq<Copy>): Option<Hit> {
    if copies == [] then None
    else if IsLocal(copies[|copies| - 1].hit) then Some(copies[|copies| - 1].hit)
    else LocalHit(copies[..|copies| - 1])
  }

  predicate Rivals(c: Copy, local: string) { !IsLocal(c.hit) && c.hit.fingerprint != local }

  function Verdict(c: Copy, local: string): (Choice, Reason) {
    CopyChoice(local, c.hit.fingerprint, c.hit.sequence, c.base)
  }

  ghost function Reasons(copies: seq<Copy>, local: string): set<Reason> {
    set c | c in copies && Rivals(c, local) :: Verdict(c, local).1
  }

  ghost function Proposed(copies: seq<Copy>, local: string): set<string> {
    set c | c in copies && Rivals(c, local) && Verdict(c, local).0 == TakeRemote :: c.hit.fingerprint
  }

  predicate SharedBefore(copies: seq<Copy>, winner: string) { exists c :: c in copies && c.base.fingerprint == winner }

  datatype Decision = Decision(winner: string, reason: Reason)

  ghost function DecideLocal(copies: seq<Copy>, local: string): Decision {
    var reasons, proposed := Reasons(copies, local), Proposed(copies, local);
    if NoBaseline in reasons then Decision(local, NoBaseline)
    else if Diverged in reasons || |proposed| > 1 then Decision(local, Diverged)
    else if |proposed| == 1 then
      var w :| w in proposed;
      if SharedBefore(copies, w) then Decision(local, Diverged) else Decision(w, RemoteChanged)
    else if IndexBehind in reasons then Decision(local, IndexBehind)
    else Decision(local, LocalChanged)
  }

  ghost function Decide(copies: seq<Copy>): Decision {
    if |Hashes(copies)| == 1 then
      var h :| h in Hashes(copies); Decision(h, NoReason)
    else if LocalHit(copies).Some? then DecideLocal(copies, LocalHit(copies).value.fingerprint)
    else Decision("", NoReason)
  }

  function LocationOf(h: Hit): Location {
    Location(h.source, h.service, h.community, h.finding, h.fingerprint, h.path, h.url)
  }

  function LocationsOf(hits: seq<Hit>): seq<Location> {
    if hits == [] then [] else LocationsOf(hits[..|hits| - 1]) + [LocationOf(hits[|hits| - 1])]
  }

  /** The copies with one text, in presentation order. */
  function WithHash(copies: seq<Copy>, hash: string): seq<Hit> {
    if copies == [] then []
    else
      var c, before := copies[|copies| - 1], WithHash(copies[..|copies| - 1], hash);
      if c.hit.fingerprint == hash then before + [c.hit] else before
  }

  function Others(copies: seq<Copy>, hash: string): seq<Location> {
    if copies == [] then []
    else
      var c, before := copies[|copies| - 1], Others(copies[..|copies| - 1], hash);
      if c.hit.fingerprint == hash then before else before + [LocationOf(c.hit)]
  }

  /** The first hit with text, else the first, and where every one of them is. */
  function FirstShown(hits: seq<Hit>): Hit
    requires hits != []
  {
    if !hits[0].metadataOnly || |hits| == 1 then hits[0]
    else if exists k :: 0 <= k < |hits| && !hits[k].metadataOnly then FirstShown(hits[1..])
    else hits[0]
  }

  function Variant(hits: seq<Hit>): Hit
    requires hits != []
  {
    FirstShown(hits).(locations := LocationsOf(hits))
  }

  function Variants(copies: seq<Copy>, hashes: seq<string>): seq<Hit>
    requires forall h :: h in hashes ==> WithHash(copies, h) != []
  {
    if hashes == [] then []
    else Variants(copies, hashes[..|hashes| - 1]) + [Variant(WithHash(copies, hashes[|hashes| - 1]))]
  }

  lemma {:induction false} WithHashSome(copies: seq<Copy>, hash: string)
    ensures WithHash(copies, hash) != [] <==> hash in Hashes(copies)
    decreases |copies|
  {
    if copies != [] {
      var n := |copies| - 1;
      WithHashSome(copies[..n], hash);
      assert copies == copies[..n] + [copies[n]];
      assert copies[n] in copies;
    }
  }

  /** The distinct texts in order. */
  ghost predicate IsHashList(copies: seq<Copy>, hashes: seq<string>) {
    (forall h :: h in hashes <==> h in Hashes(copies)) && forall i, j :: 0 <= i < j < |hashes| ==> Less(hashes[i], hashes[j])
  }

  /** `result` is what the copies, in presentation order, come to; None when nothing of it matched. */
  ghost predicate IsResolution(id: string, copies: seq<Copy>, result: Option<Hit>) {
    var d := Decide(copies);
    if d.winner != "" then
      WithHash(copies, d.winner) != []
      && var shown := Variant(WithHash(copies, d.winner));
         result == if shown.metadataOnly then None
                   else Some(shown.(resolution := d.reason, contentDiffers := |Hashes(copies)| > 1,
                                    otherCopies := shown.otherCopies + Others(copies, d.winner)))
    else
      exists hashes :: IsHashList(copies, hashes) && (forall h :: h in hashes ==> WithHash(copies, h) != [])
                       && var variants := Variants(copies, hashes);
                          result == if exists k :: 0 <= k < |variants| && !variants[k].metadataOnly
                                    then Some(Grouped(id, variants)) else None
  }

  function Grouped(id: string, variants: seq<Hit>): Hit {
    Hit("multiple", "", "", id, "", "", "", "Differing community copies", 0, false, [], [], CommunityVariants, true, variants)
  }

  // ---------- Resolving, as the source runs it ----------

  /** The keys of a map, scanned in any order and then sorted. */
  method SortedHashes(keys: set<string>) returns (hashes: seq<string>)
    ensures (forall h :: h in hashes <==> h in keys) && forall i, j :: 0 <= i < j < |hashes| ==> Less(hashes[i], hashes[j])
  {
    hashes := [];
    var rest := keys;
    while rest != {}
      invariant rest <= keys && forall h :: h in hashes <==> h in keys - rest
      invariant forall i, j :: 0 <= i < j < |hashes| ==> Less(hashes[i], hashes[j])
      decreases rest
    {
      var h :| h in rest;
      hashes := InsertHash(hashes, h);
      rest := rest - {h};
    }
  }

  method InsertHash(hashes: seq<string>, h: string) returns (more: seq<string>)
    requires h !in hashes && forall i, j :: 0 <= i < j < |hashes| ==> Less(hashes[i], hashes[j])
    ensures (forall x :: x in more <==> x in hashes || x == h) && forall i, j :: 0 <= i < j < |more| ==> Less(more[i], more[j])
  {
    hide Less;
    var k := 0;
    while k < |hashes| && Less(hashes[k], h)
      invariant 0 <= k <= |hashes| && forall i :: 0 <= i < k ==> Less(hashes[i], h)
    {
      k := k + 1;
    }
    more := hashes[..k] + [h] + hashes[k..];
    if k < |hashes| {
      LessIsTotal(hashes[k], h);
      forall j | k < j < |hashes| ensures Less(h, hashes[j]) { LessIsTransitive(h, hashes[k], hashes[j]); }
    }
  }

  method ResolveGroup(id: string, given: seq<Copy>) returns (result: Option<Hit>)
    ensures IsResolution(id, Sort(given, CopyBefore()), result)
  {
    var copies := Sort(given, CopyBefore());
    hide Sort, CopyBefore, Decide, WithHash, Less, Others, LocalHit, IsHashList, Hashes, Variants;
    var byHash, local := GroupByHash(copies);
    var hashes := SortedHashes(byHash.Keys);
    HashListIs(copies, hashes);
    CountHashes(copies, hashes);
    var winner, reason := PickWinner(copies, hashes, local);
    forall h | h in hashes ensures WithHash(copies, h) != [] { WithHashSome(copies, h); }
    if winner != "" {
      assert winner in byHash;
      WithHashSome(copies, winner);
      var hit := CopyVariant(byHash[winner]);
      if hit.metadataOnly { return None; }
      var others := OtherLocations(copies, winner);
      return Some(hit.(resolution := reason, contentDiffers := |hashes| > 1, otherCopies := hit.otherCopies + others));
    }
    var variants, matched := AllVariants(copies, byHash, hashes);
    assert IsHashList(copies, hashes);
    result := if matched then Some(Grouped(id, variants)) else None;
  }

  lemma HashListIs(copies: seq<Copy>, hashes: seq<string>)
    requires (forall h :: h in hashes <==> h in Hashes(copies)) && forall i, j :: 0 <= i < j < |hashes| ==> Less(hashes[i], hashes[j])
    ensures IsHashList(copies, hashes)
  {
  }

  lemma NothingGrouped(copies: seq<Copy>)
    ensures Hashes(copies[..0]) == {} && LocalHit(copies[..0]) == None
  {
  }

  method GroupByHash(copies: seq<Copy>) returns (byHash: map<string, seq<Hit>>, local: Option<Hit>)
    ensures byHash.Keys == Hashes(copies) && local == LocalHit(copies)
    ensures forall h :: h in byHash ==> byHash[h] == WithHash(copies, h)
  {
    hide Hashes, WithHash, LocalHit;
    byHash, local := map[], None;
    var i := 0;
    NothingGrouped(copies);
    while i < |copies|
      invariant 0 <= i <= |copies| && local == LocalHit(copies[..i]) && byHash.Keys == Hashes(copies[..i])
      invariant forall h :: h in byHash ==> byHash[h] == WithHash(copies[..i], h)
    {
      GroupNext(copies, i);
      var c := copies[i];
      var before := if c.hit.fingerprint in byHash then byHash[c.hit.fingerprint] else [];
      WithHashSome(copies[..i], c.hit.fingerprint);
      byHash := byHash[c.hit.fingerprint := before + [c.hit]];
      if IsLocal(c.hit) { local := Some(c.hit); }
      i := i + 1;
    }
    assert copies[..i] == copies;
  }

  method PickWinner(copies: seq<Copy>, hashes: seq<string>, local: Option<Hit>) returns (winner: string, reason: Reason)
    requires IsHashList(copies, hashes) && local == LocalHit(copies)
    ensures Decision(winner, reason) == Decide(copies) && (winner != "" ==> winner in Hashes(copies))
  {
    CountHashes(copies, hashes);
    hide LocalHit;
    winner, reason := "", NoReason;
    if |hashes| == 1 {
      winner := hashes[0];
    } else if local.Some? {
      winner, reason := ChooseWinner(copies, local.value.fingerprint);
      WinnerPresent(copies, local.value);
    }
  }

  lemma GroupNext(copies: seq<Copy>, i: nat)
    requires i < |copies|
    ensures LocalHit(copies[..i + 1]) == if IsLocal(copies[i].hit) then Some(copies[i].hit) else LocalHit(copies[..i])
    ensures Hashes(copies[..i + 1]) == Hashes(copies[..i]) + {copies[i].hit.fingerprint}
    ensures forall h :: WithHash(copies[..i + 1], h)
                     == if copies[i].hit.fingerprint == h then WithHash(copies[..i], h) + [copies[i].hit] else WithHash(copies[..i], h)
  {
    assert copies[..i + 1][..i] == copies[..i];
    assert copies[..i + 1] == copies[..i] + [copies[i]];
    forall h | h in Hashes(copies[..i + 1]) ensures h in Hashes(copies[..i]) + {copies[i].hit.fingerprint} {
      var c :| c in copies[..i + 1] && c.hit.fingerprint == h;
    }
    forall h | h in Hashes(copies[..i]) + {copies[i].hit.fingerprint} ensures h in Hashes(copies[..i + 1]) {
      if h != copies[i].hit.fingerprint {
        var c :| c in copies[..i] && c.hit.fingerprint == h;
        assert c in copies[..i + 1];
      } else {
        assert copies[i] in copies[..i + 1];
      }
    }
  }

  lemma {:induction false} DistinctSize(hashes: seq<string>, keys: set<string>)
    requires (forall h :: h in hashes <==> h in keys) && forall i, j :: 0 <= i < j < |hashes| ==> hashes[i] != hashes[j]
    ensures |hashes| == |keys|
    decreases |hashes|
  {
    if hashes == [] {
      assert keys == {};
    } else {
      var n := |hashes| - 1;
      assert hashes == hashes[..n] + [hashes[n]];
      forall h | h in hashes[..n] ensures h in keys - {hashes[n]} {
        var i :| 0 <= i < n && hashes[i] == h;
      }
      DistinctSize(hashes[..n], keys - {hashes[n]});
    }
  }

  lemma CountHashes(copies: seq<Copy>, hashes: seq<string>)
    requires IsHashList(copies, hashes)
    ensures |hashes| == |Hashes(copies)|
    ensures |hashes| == 1 ==> Hashes(copies) == {hashes[0]}
  {
    forall i, j | 0 <= i < j < |hashes| ensures hashes[i] != hashes[j] { LessIsStrict(hashes[i], hashes[j]); }
    DistinctSize(hashes, Hashes(copies));
    if |hashes| == 1 {
      assert hashes == [hashes[0]];
      forall h | h in Hashes(copies) ensures h == hashes[0] { assert h in hashes; }
    }
  }

  /** A local winner's text, and a proposed one's, is that of a copy in the group. */
  lemma WinnerPresent(copies: seq<Copy>, local: Hit)
    requires LocalHit(copies) == Some(local)
    ensures DecideLocal(copies, local.fingerprint).winner in Hashes(copies)
  {
    LocalIsCopy(copies);
  }

  lemma {:induction false} LocalIsCopy(copies: seq<Copy>)
    requires LocalHit(copies).Some?
    ensures exists c :: c in copies && c.hit == LocalHit(copies).value && IsLocal(c.hit)
    decreases |copies|
  {
    var n := |copies| - 1;
    assert copies[n] in copies;
    if !IsLocal(copies[n].hit) {
      LocalIsCopy(copies[..n]);
      var c :| c in copies[..n] && c.hit == LocalHit(copies).value && IsLocal(c.hit);
      assert c in copies;
    }
  }

  /** Weigh every differing link, and let any sign of conflicting history keep the local text. */
  method ChooseWinner(copies: seq<Copy>, local: string) returns (winner: string, reason: Reason)
    ensures Decision(winner, reason) == DecideLocal(copies, local)
  {
    hide Reasons, Proposed, Verdict, Rivals, IsLocal;
    var reasons, proposed := WeighLinks(copies, local);
    winner := local;
    if NoBaseline in reasons {
      reason := NoBaseline;
    } else if Diverged in reasons || |proposed| > 1 {
      reason := Diverged;
    } else if |proposed| == 1 {
      var w :| w in proposed;
      OnlyOne(proposed, w);
      winner, reason := w, RemoteChanged;
      for k := 0 to |copies|
        invariant winner == w && reason == RemoteChanged && forall j :: 0 <= j < k ==> copies[j].base.fingerprint != w
      {
        if copies[k].base.fingerprint == w {
          assert copies[k] in copies;
          winner, reason := local, Diverged;
          break;
        }
      }
    } else if IndexBehind in reasons {
      reason := IndexBehind;
    } else {
      reason := LocalChanged;
    }
  }

  method WeighLinks(copies: seq<Copy>, local: string) returns (reasons: set<Reason>, proposed: set<string>)
    ensures reasons == Reasons(copies, local) && proposed == Proposed(copies, local)
  {
    hide Reasons, Proposed;
    reasons, proposed := {}, {};
    NoVerdicts(copies, local);
    var i := 0;
    while i < |copies|
      invariant 0 <= i <= |copies| && reasons == Reasons(copies[..i], local) && proposed == Proposed(copies[..i], local)
    {
      var c := copies[i];
      VerdictNext(copies, local, i);
      if !IsLocal(c.hit) && c.hit.fingerprint != local {
        var v := CopyChoice(local, c.hit.fingerprint, c.hit.sequence, c.base);
        reasons := reasons + {v.1};
        if v.0 == TakeRemote { proposed := proposed + {c.hit.fingerprint}; }
      }
      i := i + 1;
    }
    assert copies[..i] == copies;
  }

  lemma NoVerdicts(copies: seq<Copy>, local: string)
    ensures Reasons(copies[..0], local) == {} && Proposed(copies[..0], local) == {}
  {
  }

  lemma OnlyOne(s: set<string>, w: string)
    requires |s| == 1 && w in s
    ensures s == {w}
  {
    var rest := s - {w};
    assert |rest| == 0;
    assert s == rest + {w};
  }

  lemma VerdictNext(copies: seq<Copy>, local: string, i: nat)
    requires i < |copies|
    ensures var c := copies[i];
            Reasons(copies[..i + 1], local) == Reasons(copies[..i], local) + (if Rivals(c, local) then {Verdict(c, local).1} else {})
            && Proposed(copies[..i + 1], local)
               == Proposed(copies[..i], local)
                  + (if Rivals(c, local) && Verdict(c, local).0 == TakeRemote then {c.hit.fingerprint} else {})
  {
    assert copies[..i + 1] == copies[..i] + [copies[i]];
  }

  method CopyVariant(hits: seq<Hit>) returns (hit: Hit)
    requires hits != []
    ensures hit == Variant(hits)
  {
    hit := hits[0];
    var k := 0;
    while k < |hits| && hits[k].metadataOnly
      invariant 0 <= k <= |hits| && forall j :: 0 <= j < k ==> hits[j].metadataOnly
    {
      k := k + 1;
    }
    if k < |hits| { hit := hits[k]; }
    FirstShownIs(hits, k);
    var locations: seq<Location> := [];
    assert hits[..0] == [];
    for i := 0 to |hits|
      invariant locations == LocationsOf(hits[..i])
    {
      assert hits[..i + 1][..i] == hits[..i];
      locations := locations + [LocationOf(hits[i])];
    }
    assert hits[..|hits|] == hits;
    hit := hit.(locations := locations);
  }

  lemma {:induction false} FirstShownIs(hits: seq<Hit>, k: nat)
    requires hits != [] && k <= |hits| && forall j :: 0 <= j < k ==> hits[j].metadataOnly
    requires k < |hits| ==> !hits[k].metadataOnly
    ensures FirstShown(hits) == hits[if k < |hits| then k else 0]
    decreases |hits|
  {
    if 0 < k < |hits| {
      FirstShownIs(hits[1..], k - 1);
    }
  }

  method OtherLocations(copies: seq<Copy>, winner: string) returns (others: seq<Location>)
    ensures others == Others(copies, winner)
  {
    others := [];
    assert copies[..0] == [];
    for i := 0 to |copies|
      invariant others == Others(copies[..i], winner)
    {
      assert copies[..i + 1][..i] == copies[..i];
      if copies[i].hit.fingerprint != winner { others := others + [LocationOf(copies[i].hit)]; }
    }
    assert copies[..|copies|] == copies;
  }

  method AllVariants(ghost copies: seq<Copy>, byHash: map<string, seq<Hit>>, hashes: seq<string>)
    returns (variants: seq<Hit>, matched: bool)
    requires forall h :: h in hashes ==> h in byHash && byHash[h] == WithHash(copies, h) && WithHash(copies, h) != []
    ensures variants == Variants(copies, hashes)
    ensures matched <==> exists k :: 0 <= k < |variants| && !variants[k].metadataOnly
  {
    variants, matched := [], false;
    assert hashes[..0] == [];
    hide WithHash;
    for i := 0 to |hashes|
      invariant forall h :: h in hashes[..i] ==> WithHash(copies, h) != []
      invariant variants == Variants(copies, hashes[..i])
      invariant matched <==> exists k :: 0 <= k < |variants| && !variants[k].metadataOnly
    {
      assert hashes[..i + 1][..i] == hashes[..i];
      assert hashes[i] in hashes;
      var variant := CopyVariant(byHash[hashes[i]]);
      ghost var was := variants;
      variants := variants + [variant];
      assert variants[|was|] == variant && forall k :: 0 <= k < |was| ==> variants[k] == was[k];
      matched := matched || !variant.metadataOnly;
    }
    assert hashes[..|hashes|] == hashes;
  }

  // ---------- One resolution, whatever the order ----------

  lemma {:induction false} HashListUnique(a: seq<string>, b: seq<string>)
    requires forall h :: h in a <==> h in b
    requires forall i, j :: 0 <= i < j < |a| ==> Less(a[i], a[j])
    requires forall i, j :: 0 <= i < j < |b| ==> Less(b[i], b[j])
    ensures a == b
    decreases |a|
  {
    hide Less;
    if a == [] {
      assert multiset(b) == multiset{} by { assert forall h :: h in multiset(b) <==> h in b; }
      assert |multiset(b)| == |b|;
    } else {
      assert a[0] in b;
      assert b[0] in a;
      var i :| 0 <= i < |a| && a[i] == b[0];
      var j :| 0 <= j < |b| && b[j] == a[0];
      LessIsStrict(a[0], b[0]);
      assert a[0] == b[0];
      TailMembers(a, b);
      HashListUnique(a[1..], b[1..]);
      assert a == [a[0]] + a[1..] && b == [b[0]] + b[1..];
    }
  }

  lemma TailMembers(a: seq<string>, b: seq<string>)
    requires a != [] && b != [] && a[0] == b[0] && forall h :: h in a <==> h in b
    requires forall i, j :: 0 <= i < j < |a| ==> Less(a[i], a[j])
    requires forall i, j :: 0 <= i < j < |b| ==> Less(b[i], b[j])
    ensures forall h :: h in a[1..] <==> h in b[1..]
  {
    hide Less;
    NotInTail(a);
    NotInTail(b);
    InTail(a);
    InTail(b);
  }

  lemma InTail(a: seq<string>)
    requires a != []
    ensures forall h :: h in a <==> h == a[0] || h in a[1..]
  {
    assert a == [a[0]] + a[1..];
  }

  lemma NotInTail(a: seq<string>)
    requires a != [] && forall i, j :: 0 <= i < j < |a| ==> Less(a[i], a[j])
    ensures a[0] !in a[1..]
  {
    hide Less;
    if a[0] in a[1..] {
      var j :| 0 <= j < |a| - 1 && a[1..][j] == a[0];
      assert Less(a[0], a[j + 1]);
      LessIsStrict(a[0], a[0]);
    }
  }

  lemma ResolutionUnique(id: string, copies: seq<Copy>, a: Option<Hit>, b: Option<Hit>)
    requires IsResolution(id, copies, a) && IsResolution(id, copies, b)
    ensures a == b
  {
    hide WithHash, Others, Less, Variants, Variant;
    if Decide(copies).winner == "" {
      hide Decide;
      var x :| IsHashList(copies, x) && (forall h :: h in x ==> WithHash(copies, h) != [])
               && a == if exists k :: 0 <= k < |Variants(copies, x)| && !Variants(copies, x)[k].metadataOnly
                       then Some(Grouped(id, Variants(copies, x))) else None;
      var y :| IsHashList(copies, y) && (forall h :: h in y ==> WithHash(copies, h) != [])
               && b == if exists k :: 0 <= k < |Variants(copies, y)| && !Variants(copies, y)[k].metadataOnly
                       then Some(Grouped(id, Variants(copies, y))) else None;
      HashListUnique(x, y);
    }
  }

  /** The copies may be observed in any order: the outcome is the same. */
  lemma OrderDoesNotMatter(id: string, a: seq<Copy>, b: seq<Copy>, ra: Option<Hit>, rb: Option<Hit>)
    requires multiset(a) == multiset(b) && OwnSources(a)
    requires IsResolution(id, Sort(a, CopyBefore()), ra) && IsResolution(id, Sort(b, CopyBefore()), rb)
    ensures ra == rb
  {
    hide IsResolution, Sort;
    CopyBeforeIsStrict();
    OwnSourcesSeparate(a);
    SortIgnoresOrder(a, b, CopyBefore());
    ResolutionUnique(id, Sort(a, CopyBefore()), ra, rb);
  }

  // ---------- When a remote text replaces the local one ----------

  /** A link whose baseline is the local text, seen no earlier than the baseline: the remote moved on. */
  predicate Proposes(c: Copy, local: string) {
    Rivals(c, local) && c.base.fingerprint == local && c.base.fingerprint != "" && c.hit.sequence >= c.base.sequence
  }

  /** A link with no baseline, or with one that neither side has any more. */
  predicate Contradicts(c: Copy, local: string) {
    Rivals(c, local)
    && (c.base.fingerprint == ""
        || (c.hit.sequence >= c.base.sequence && c.base.fingerprint != local && c.base.fingerprint != c.hit.fingerprint))
  }

  lemma ProposedAre(copies: seq<Copy>, local: string)
    requires local != ""
    ensures forall x :: x in Proposed(copies, local) <==> exists c :: c in copies && Proposes(c, local) && c.hit.fingerprint == x
    ensures forall c :: c in copies && Proposes(c, local) ==> c.hit.fingerprint in Proposed(copies, local)
  {
    forall x | x in Proposed(copies, local) ensures exists c :: c in copies && Proposes(c, local) && c.hit.fingerprint == x {
      var c :| c in copies && Rivals(c, local) && Verdict(c, local).0 == TakeRemote && c.hit.fingerprint == x;
      assert Proposes(c, local);
    }
  }

  lemma Singleton(s: set<string>, w: string)
    ensures s == {w} <==> w in s && |s| == 1
  {
    if w in s && |s| == 1 { OnlyOne(s, w); }
  }

  lemma DecidesFor(copies: seq<Copy>, local: string, w: string)
    requires w != local
    ensures DecideLocal(copies, local).winner == w <==>
              NoBaseline !in Reasons(copies, local) && Diverged !in Reasons(copies, local)
              && Proposed(copies, local) == {w} && !SharedBefore(copies, w)
  {
    Singleton(Proposed(copies, local), w);
    hide Reasons, Proposed, SharedBefore;
  }

  /** Some link proposes `w`, every proposing link proposes the same, no link contradicts, and no
      link ever had it as its baseline. */
  ghost predicate Supersedes(copies: seq<Copy>, local: string, w: string) {
    (exists c :: c in copies && Proposes(c, local))
    && (forall c :: c in copies && Proposes(c, local) ==> c.hit.fingerprint == w)
    && (forall c :: c in copies ==> !Contradicts(c, local))
    && (forall c :: c in copies ==> c.base.fingerprint != w)
  }

  lemma DecidesRemoteIff(copies: seq<Copy>, local: string, w: string)
    requires local != "" && w != local
    ensures DecideLocal(copies, local).winner == w <==> Supersedes(copies, local, w)
    ensures DecideLocal(copies, local).winner == w ==> DecideLocal(copies, local).reason == RemoteChanged
  {
    hide DecideLocal, Reasons, Proposed, Proposes, Contradicts;
    DecidesFor(copies, local, w);
    ProposedAre(copies, local);
    ContradictionReasons(copies, local);
    RemoteReason(copies, local);
    if (exists c :: c in copies && Proposes(c, local)) && forall c :: c in copies && Proposes(c, local) ==> c.hit.fingerprint == w {
      assert Proposed(copies, local) == {w};
    }
  }

  lemma RemoteReason(copies: seq<Copy>, local: string)
    ensures DecideLocal(copies, local).winner != local ==> DecideLocal(copies, local).reason == RemoteChanged
  {
    hide Reasons, Proposed, SharedBefore;
  }

  /** What is shown for a text is that text, and matched if one of its copies did. */
  lemma VariantShows(copies: seq<Copy>, hash: string)
    requires WithHash(copies, hash) != []
    ensures var v := Variant(WithHash(copies, hash));
            v.fingerprint == hash && (!v.metadataOnly <==> exists c :: c in copies && c.hit.fingerprint == hash && !c.hit.metadataOnly)
  {
    hide WithHash, LocationsOf;
    WithHashMembers(copies, hash);
    FirstShownIn(WithHash(copies, hash));
    FirstShownMatches(WithHash(copies, hash));
  }

  lemma {:induction false} FirstShownMatches(hits: seq<Hit>)
    requires hits != []
    ensures FirstShown(hits).metadataOnly <==> forall h :: h in hits ==> h.metadataOnly
  {
    assert hits == [hits[0]] + hits[1..];
    if hits[0].metadataOnly && |hits| > 1 { FirstShownMatches(hits[1..]); }
  }

  lemma {:induction false} WithHashMembers(copies: seq<Copy>, hash: string)
    ensures forall h :: h in WithHash(copies, hash) <==> h.fingerprint == hash && exists c :: c in copies && c.hit == h
    decreases |copies|
  {
    if copies != [] {
      var n := |copies| - 1;
      WithHashMembers(copies[..n], hash);
      assert copies == copies[..n] + [copies[n]];
    }
  }

  lemma {:induction false} OnlyLocal(copies: seq<Copy>, c: Copy)
    requires c in copies && IsLocal(c.hit) && forall x :: x in copies && IsLocal(x.hit) ==> x == c
    ensures LocalHit(copies) == Some(c.hit)
    decreases |copies|
  {
    var n := |copies| - 1;
    assert copies == copies[..n] + [copies[n]];
    if !IsLocal(copies[n].hit) { OnlyLocal(copies[..n], c); }
  }

  lemma SameCopies(a: seq<Copy>, b: seq<Copy>)
    requires multiset(a) == multiset(b)
    ensures forall c :: c in a <==> c in b
  {
    assert forall c :: c in a <==> c in multiset(a);
    assert forall c :: c in b <==> c in multiset(b);
  }

  lemma SameSuperseded(a: seq<Copy>, b: seq<Copy>, local: string, w: string)
    requires forall c :: c in a <==> c in b
    ensures Supersedes(a, local, w) <==> Supersedes(b, local, w)
  {
    hide Proposes, Contradicts;
  }

  /** With a local copy, any other text takes the decision between them. */
  lemma DecideOther(copies: seq<Copy>, mine: Copy, w: string)
    requires mine in copies && LocalHit(copies) == Some(mine.hit) && mine.hit.fingerprint != "" && w != mine.hit.fingerprint
    ensures Decide(copies).winner == w <==> Supersedes(copies, mine.hit.fingerprint, w)
    ensures Decide(copies).winner == w ==> Decide(copies).reason == RemoteChanged && |Hashes(copies)| > 1
  {
    var local := mine.hit.fingerprint;
    DecidesRemoteIff(copies, local, w);
    hide DecideLocal, LocalHit, Contradicts;
    assert local in Hashes(copies);
    if |Hashes(copies)| == 1 {
      OnlyText(copies, local);
    } else if |Hashes(copies)| == 0 {
      assert false;
    }
  }

  lemma OnlyText(copies: seq<Copy>, local: string)
    requires local in Hashes(copies) && |Hashes(copies)| == 1
    ensures forall c :: c in copies ==> c.hit.fingerprint == local
    ensures forall h :: h in Hashes(copies) ==> h == local
  {
    OnlyOne(Hashes(copies), local);
    forall c | c in copies ensures c.hit.fingerprint == local { assert c.hit.fingerprint in Hashes(copies); }
  }

  /** The result shows another text than the local one exactly when that supersedes it and one of its
      copies matched; and it says so. */
  lemma RemoteReplacesLocalIff(id: string, given: seq<Copy>, mine: Copy, result: Option<Hit>, w: string)
    requires IsResolution(id, Sort(given, CopyBefore()), result) && OwnSources(given)
    requires mine in given && IsLocal(mine.hit) && mine.hit.fingerprint != "" && w != "" && w != mine.hit.fingerprint
    ensures result.Some? && result.value.fingerprint == w <==>
              Supersedes(given, mine.hit.fingerprint, w) && exists c :: c in given && c.hit.fingerprint == w && !c.hit.metadataOnly
    ensures result.Some? && result.value.fingerprint == w ==> result.value.resolution == RemoteChanged && result.value.contentDiffers
  {
    hide Sort, Supersedes, WithHash, Others, Less, Variant, Variants, Decide, Hashes, LocalHit, CopyBefore, IsHashList;
    var copies := Sort(given, CopyBefore());
    CopyBeforeIsStrict();
    SortIs(given, CopyBefore());
    SameCopies(given, copies);
    OnlyLocal(copies, mine);
    DecideOther(copies, mine, w);
    SameSuperseded(given, copies, mine.hit.fingerprint, w);
    if Decide(copies).winner != "" { VariantShows(copies, Decide(copies).winner); }
  }

  lemma ContradictionReasons(copies: seq<Copy>, local: string)
    requires local != ""
    ensures (exists c :: c in copies && Contradicts(c, local))
            <==> NoBaseline in Reasons(copies, local) || Diverged in Reasons(copies, local)
  {
    if NoBaseline in Reasons(copies, local) {
      var c :| c in copies && Rivals(c, local) && Verdict(c, local).1 == NoBaseline;
      assert Contradicts(c, local);
    }
    if Diverged in Reasons(copies, local) {
      var c :| c in copies && Rivals(c, local) && Verdict(c, local).1 == Diverged;
      assert Contradicts(c, local);
    }
    if c :| c in copies && Contradicts(c, local) {
      assert Verdict(c, local).1 in Reasons(copies, local);
    }
  }

  // ---------- Every location is kept ----------

  function AllLocations(copies: seq<Copy>): seq<Location> {
    if copies == [] then [] else AllLocations(copies[..|copies| - 1]) + [LocationOf(copies[|copies| - 1].hit)]
  }

  lemma OneMoreLocation(hits: seq<Hit>, h: Hit)
    ensures LocationsOf(hits + [h]) == LocationsOf(hits) + [LocationOf(h)]
  {
    assert (hits + [h])[..|hits|] == hits;
  }

  lemma OneMore<T>(some: multiset<T>, others: seq<T>, all: seq<T>, more: seq<T>, x: T)
    requires some + multiset(others) == multiset(all)
    ensures some + multiset{x} + multiset(others) == multiset(all + [x])
    ensures some + multiset(others + [x]) == multiset(all + [x])
    ensures multiset(more + [x]) == multiset(more) + multiset{x}
  {
  }

  lemma {:induction false} LocationsSplit(copies: seq<Copy>, hash: string)
    ensures multiset(LocationsOf(WithHash(copies, hash))) + multiset(Others(copies, hash)) == multiset(AllLocations(copies))
    decreases |copies|
  {
    if copies != [] {
      var n := |copies| - 1;
      LocationsSplit(copies[..n], hash);
      OneMoreLocation(WithHash(copies[..n], hash), copies[n].hit);
      var x := LocationOf(copies[n].hit);
      var own, others, all := LocationsOf(WithHash(copies[..n], hash)), Others(copies[..n], hash), AllLocations(copies[..n]);
      assert AllLocations(copies) == all + [x];
      if copies[n].hit.fingerprint == hash {
        assert LocationsOf(WithHash(copies, hash)) == own + [x] && Others(copies, hash) == others;
      } else {
        assert LocationsOf(WithHash(copies, hash)) == own && Others(copies, hash) == others + [x];
      }
      hide *;
      OneMore(multiset(own), others, all, own, x);
    }
  }

  function VariantLocations(variants: seq<Hit>): multiset<Location> {
    if variants == [] then multiset{} else VariantLocations(variants[..|variants| - 1]) + multiset(variants[|variants| - 1].locations)
  }

  /** The locations of the copies whose text is in the list. */
  function LocationsIn(copies: seq<Copy>, hashes: seq<string>): multiset<Location> {
    if copies == [] then multiset{}
    else
      var c, before := copies[|copies| - 1], LocationsIn(copies[..|copies| - 1], hashes);
      if c.hit.fingerprint in hashes then before + multiset{LocationOf(c.hit)} else before
  }

  lemma {:induction false} LocationsMore(copies: seq<Copy>, hashes: seq<string>, h: string)
    requires h !in hashes
    ensures LocationsIn(copies, hashes + [h]) == LocationsIn(copies, hashes) + multiset(LocationsOf(WithHash(copies, h)))
    decreases |copies|
  {
    hide LocationsOf, LocationOf;
    if copies != [] {
      var n := |copies| - 1;
      LocationsMore(copies[..n], hashes, h);
      OneMoreLocation(WithHash(copies[..n], h), copies[n].hit);
      OneMore(multiset{}, [], [], LocationsOf(WithHash(copies[..n], h)), LocationOf(copies[n].hit));
    } else {
      NoLocations();
    }
  }

  lemma NoLocations()
    ensures LocationsOf([]) == []
  {
  }

  lemma {:induction false} LocationsNone(copies: seq<Copy>)
    ensures LocationsIn(copies, []) == multiset{}
    decreases |copies|
  {
    if copies != [] { LocationsNone(copies[..|copies| - 1]); }
  }

  lemma OneMoreVariant(variants: seq<Hit>, last: Hit)
    ensures VariantLocations(variants + [last]) == VariantLocations(variants) + multiset(last.locations)
  {
    assert (variants + [last])[..|variants|] == variants;
  }

  lemma {:induction false} VariantsCover(copies: seq<Copy>, hashes: seq<string>)
    requires forall h :: h in hashes ==> WithHash(copies, h) != []
    requires forall i, j :: 0 <= i < j < |hashes| ==> hashes[i] != hashes[j]
    ensures VariantLocations(Variants(copies, hashes)) == LocationsIn(copies, hashes)
    decreases |hashes|
  {
    hide WithHash, FirstShown, LocationsIn, LocationsOf, Variants, VariantLocations, Variant;
    if hashes == [] {
      LocationsNone(copies);
      NoVariants(copies);
    } else {
      var n := |hashes| - 1;
      VariantsCover(copies, hashes[..n]);
      LocationsMore(copies, hashes[..n], hashes[n]);
      assert hashes == hashes[..n] + [hashes[n]];
      LastVariant(copies, hashes);
    }
  }

  lemma NoVariants(copies: seq<Copy>)
    ensures VariantLocations(Variants(copies, [])) == multiset{}
  {
  }

  lemma LastVariant(copies: seq<Copy>, hashes: seq<string>)
    requires hashes != [] && forall h :: h in hashes ==> WithHash(copies, h) != []
    ensures VariantLocations(Variants(copies, hashes))
         == VariantLocations(Variants(copies, hashes[..|hashes| - 1])) + multiset(LocationsOf(WithHash(copies, hashes[|hashes| - 1])))
  {
    hide WithHash, FirstShown, LocationsOf, VariantLocations;
    OneMoreVariant(Variants(copies, hashes[..|hashes| - 1]), Variant(WithHash(copies, hashes[|hashes| - 1])));
  }

  lemma {:induction false} LocationsCovered(copies: seq<Copy>, hashes: seq<string>)
    requires forall c :: c in copies ==> c.hit.fingerprint in hashes
    ensures LocationsIn(copies, hashes) == multiset(AllLocations(copies))
    decreases |copies|
  {
    if copies != [] {
      assert copies[|copies| - 1] in copies;
      LocationsCovered(copies[..|copies| - 1], hashes);
    }
  }

  /** Whenever there is a result, every copy's location is in it exactly once: with the winner, among
      its other copies, or under its own variant. */
  lemma LocationsConserved(id: string, copies: seq<Copy>, hit: Hit)
    requires IsResolution(id, copies, Some(hit)) && forall c :: c in copies ==> c.hit.otherCopies == []
    ensures multiset(AllLocations(copies))
         == if Decide(copies).winner != "" then multiset(hit.locations) + multiset(hit.otherCopies) else VariantLocations(hit.variants)
  {
    hide WithHash, Others, Less, AllLocations, Decide, LocationsOf, Variants, VariantLocations;
    var d := Decide(copies);
    if d.winner != "" {
      LocationsSplit(copies, d.winner);
      ShownIsCopy(copies, d.winner);
    } else {
      var x :| IsHashList(copies, x) && (forall h :: h in x ==> WithHash(copies, h) != [])
               && Some(hit) == if exists k :: 0 <= k < |Variants(copies, x)| && !Variants(copies, x)[k].metadataOnly
                               then Some(Grouped(id, Variants(copies, x))) else None;
      forall i, j | 0 <= i < j < |x| ensures x[i] != x[j] { LessIsStrict(x[i], x[j]); }
      VariantsCover(copies, x);
      LocationsCovered(copies, x);
    }
  }

  lemma {:induction false} FirstShownIn(hits: seq<Hit>)
    requires hits != []
    ensures FirstShown(hits) in hits
    decreases |hits|
  {
    if hits[0].metadataOnly && |hits| > 1 && (exists k :: 0 <= k < |hits| && !hits[k].metadataOnly) {
      FirstShownIn(hits[1..]);
    }
  }

  lemma ShownIsCopy(copies: seq<Copy>, hash: string)
    requires WithHash(copies, hash) != [] && forall c :: c in copies ==> c.hit.otherCopies == []
    ensures Variant(WithHash(copies, hash)).otherCopies == []
  {
    FirstShownIn(WithHash(copies, hash));
    WithHashMembers(copies, hash);
  }
}

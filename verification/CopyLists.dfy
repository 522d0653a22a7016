/** Ranked result lists: exact copies collapsed, sources interleaved, a window of findings. */
module CopyLists {
  import opened CopyReconciliation
  import opened CopyIdentity

  // ---------- Collapsing exact copies ----------

  datatype Key =
    | SameCopy(finding: string, fingerprint: string)
    | LocalPath(path: string)
    | RemoteCopy(service: string, community: string, finding: string, fingerprint: string)
    | Unknown(rank: nat)

  predicate Identified(h: Hit) { ValidIdentity(h.finding, h.fingerprint) }

  function KeyOf(h: Hit, rank: nat): Key {
    if Identified(h) then SameCopy(h.finding, h.fingerprint)
    else if IsLocal(h) then LocalPath(h.path)
    else if h.finding == "" || h.fingerprint == "" then Unknown(rank)
    else RemoteCopy(h.service, h.community, h.finding, h.fingerprint)
  }

  /** A hit that lists no places is at its own. */
  function PlacesOf(h: Hit): seq<Location> {
    if h.locations == [] then [Location(h.source, h.service, h.community, h.finding, h.fingerprint, h.path, "")] else h.locations
  }

  function AddPlaces(places: seq<Location>, more: seq<Location>): seq<Location>
    decreases |more|
  {
    if more == [] then places
    else
      var n := |more| - 1;
      var before := AddPlaces(places, more[..n]);
      if more[n] in before then before else before + [more[n]]
  }

  datatype Group = Group(key: Key, shown: Hit, places: seq<Location>)

  function Find(groups: seq<Group>, key: Key): nat {
    if groups == [] then 0 else if groups[0].key == key then 0 else 1 + Find(groups[1..], key)
  }

  function Join(groups: seq<Group>, h: Hit, key: Key): seq<Group> {
    var i := Find(groups, key);
    if i < |groups| then
      var g := groups[i];
      groups[i := Group(key, if IsLocal(h) && !IsLocal(g.shown) then h else g.shown, AddPlaces(g.places, PlacesOf(h)))]
    else groups + [Group(key, h, AddPlaces([], PlacesOf(h)))]
  }

  /** One group for each key, in the order the keys first came. */
  function Groups(hits: seq<Hit>): seq<Group> {
    if hits == [] then [] else Join(Groups(hits[..|hits| - 1]), hits[|hits| - 1], KeyOf(hits[|hits| - 1], |hits| - 1))
  }

  /** Two texts under one identity. */
  ghost predicate Differs(hits: seq<Hit>, finding: string) {
    exists i, j :: 0 <= i < |hits| && 0 <= j < |hits| && Identified(hits[i]) && Identified(hits[j])
                   && hits[i].finding == hits[j].finding == finding && hits[i].fingerprint != hits[j].fingerprint
  }

  ghost function ShownGroup(hits: seq<Hit>, g: Group): Hit {
    g.shown.(locations := g.places, contentDiffers := g.shown.contentDiffers || Differs(hits, g.shown.finding))
  }

  ghost predicate IsCollapsed(hits: seq<Hit>, out: seq<Hit>) {
    |out| == |Groups(hits)| && forall i :: 0 <= i < |out| ==> out[i] == ShownGroup(hits, Groups(hits)[i])
  }

  method CollapseCopies(hits: seq<Hit>, limit: int) returns (out: seq<Hit>)
    ensures limit <= 0 ==> IsCollapsed(hits, out)
    ensures limit > 0 ==> exists all :: IsCollapsed(hits, all) && out == if |all| > limit then all[..limit] else all
  {
    hide Groups, SeenFits, ScanFits, KeyOf, Identified, Join, ShownGroup, IsCollapsed, Differs;
    var groups: seq<Group> := [];
    var seen: map<Key, nat> := map[];
    var fingerprints: map<string, string> := map[];
    var differs: set<string> := {};
    ScanStart(hits);
    var n := 0;
    while n < |hits|
      invariant 0 <= n <= |hits| && groups == Groups(hits[..n]) && SeenFits(groups, seen)
      invariant ScanFits(hits[..n], fingerprints, differs)
    {
      var h := hits[n];
      GroupsNext(hits, n);
      var key := KeyOf(h, n);
      ScanNext(hits[..n], h, fingerprints, differs);
      assert hits[..n + 1] == hits[..n] + [h];
      if Identified(h) {
        if h.finding in fingerprints && fingerprints[h.finding] != h.fingerprint { differs := differs + {h.finding}; }
        fingerprints := fingerprints[h.finding := h.fingerprint];
      }
      groups, seen := JoinSeen(groups, seen, h, key);
      n := n + 1;
    }
    assert hits[..n] == hits;
    out := ShowGroups(hits, groups, fingerprints, differs);
    CollapsedIs(hits, out);
    if limit > 0 && |out| > limit { out := out[..limit]; }
  }

  lemma ScanStart(hits: seq<Hit>)
    ensures Groups(hits[..0]) == [] && SeenFits([], map[]) && ScanFits(hits[..0], map[], {})
  {
  }

  lemma GroupsNext(hits: seq<Hit>, n: nat)
    requires n < |hits|
    ensures Groups(hits[..n + 1]) == Join(Groups(hits[..n]), hits[n], KeyOf(hits[n], n))
  {
    hide Join, KeyOf;
    assert hits[..n + 1][..n] == hits[..n];
  }

  lemma CollapsedIs(hits: seq<Hit>, out: seq<Hit>)
    requires |out| == |Groups(hits)| && forall j :: 0 <= j < |out| ==> out[j] == ShownGroup(hits, Groups(hits)[j])
    ensures IsCollapsed(hits, out)
  {
  }

  method ShowGroups(ghost hits: seq<Hit>, groups: seq<Group>, ghost fingerprints: map<string, string>, differs: set<string>)
    returns (out: seq<Hit>)
    requires ScanFits(hits, fingerprints, differs)
    ensures |out| == |groups| && forall j :: 0 <= j < |out| ==> out[j] == ShownGroup(hits, groups[j])
  {
    hide ScanFits, Differs;
    out := [];
    for i := 0 to |groups|
      invariant |out| == i && forall j :: 0 <= j < i ==> out[j] == ShownGroup(hits, groups[j])
    {
      var g := groups[i];
      ScanMeans(hits, fingerprints, differs, g.shown.finding);
      out := out + [g.shown.(locations := g.places, contentDiffers := g.shown.contentDiffers || g.shown.finding in differs)];
    }
  }

  ghost predicate DistinctKeys(groups: seq<Group>) {
    forall i, j :: 0 <= i < j < |groups| ==> groups[i].key != groups[j].key
  }

  ghost predicate SeenFits(groups: seq<Group>, seen: map<Key, nat>) {
    DistinctKeys(groups)
    && (forall k :: k in seen ==> seen[k] < |groups| && groups[seen[k]].key == k)
    && forall i :: 0 <= i < |groups| ==> groups[i].key in seen
  }

  lemma {:induction false} FindIs(groups: seq<Group>, key: Key)
    ensures Find(groups, key) <= |groups|
    ensures Find(groups, key) < |groups| ==> groups[Find(groups, key)].key == key
    ensures forall i :: 0 <= i < Find(groups, key) ==> groups[i].key != key
  {
    if groups != [] && groups[0].key != key { FindIs(groups[1..], key); }
  }

  method JoinSeen(groups: seq<Group>, seen: map<Key, nat>, h: Hit, key: Key) returns (after: seq<Group>, seen': map<Key, nat>)
    requires SeenFits(groups, seen)
    ensures after == Join(groups, h, key) && SeenFits(after, seen')
  {
    FindIs(groups, key);
    after, seen' := groups, seen;
    var i := |groups|;
    if key in seen {
      i := seen[key];
      var g := groups[i];
      var places := ExtendPlaces(g.places, PlacesOf(h));
      after := groups[i := Group(key, if IsLocal(h) && !IsLocal(g.shown) then h else g.shown, places)];
    } else {
      var places := ExtendPlaces([], PlacesOf(h));
      seen' := seen[key := i];
      after := groups + [Group(key, h, places)];
    }
  }

  method ExtendPlaces(places: seq<Location>, more: seq<Location>) returns (all: seq<Location>)
    ensures all == AddPlaces(places, more)
  {
    all := places;
    var have := set p | p in places;
    assert more[..0] == [];
    for i := 0 to |more|
      invariant all == AddPlaces(places, more[..i]) && have == set p | p in all
    {
      assert more[..i + 1][..i] == more[..i];
      if more[i] !in have {
        all := all + [more[i]];
        have := have + {more[i]};
      }
    }
    assert more[..|more|] == more;
  }

  /** The scan that keeps only the last text of each identity. */
  ghost predicate ScanFits(hits: seq<Hit>, fingerprints: map<string, string>, differs: set<string>) {
    (forall i :: 0 <= i < |hits| && Identified(hits[i]) ==>
       hits[i].finding in fingerprints && (hits[i].finding in differs || hits[i].fingerprint == fingerprints[hits[i].finding]))
    && (forall f :: f in fingerprints ==> LastText(hits, f, fingerprints[f]))
    && forall f :: f in differs ==> Differs(hits, f)
  }

  ghost predicate LastText(hits: seq<Hit>, finding: string, fingerprint: string) {
    exists i :: 0 <= i < |hits| && Identified(hits[i]) && hits[i].finding == finding && hits[i].fingerprint == fingerprint
  }

  lemma MoreHits(hits: seq<Hit>, h: Hit, finding: string)
    ensures Differs(hits, finding) ==> Differs(hits + [h], finding)
    ensures forall fp :: LastText(hits, finding, fp) ==> LastText(hits + [h], finding, fp)
  {
    var more := hits + [h];
    assert forall i :: 0 <= i < |hits| ==> more[i] == hits[i];
    if Differs(hits, finding) {
      var i, j :| 0 <= i < |hits| && 0 <= j < |hits| && Identified(hits[i]) && Identified(hits[j])
                  && hits[i].finding == hits[j].finding == finding && hits[i].fingerprint != hits[j].fingerprint;
      assert Identified(more[i]) && Identified(more[j]);
    }
    forall fp | LastText(hits, finding, fp) ensures LastText(more, finding, fp) {
      var i :| 0 <= i < |hits| && Identified(hits[i]) && hits[i].finding == finding && hits[i].fingerprint == fp;
      assert Identified(more[i]);
    }
  }

  lemma ScanNext(hits: seq<Hit>, h: Hit, fingerprints: map<string, string>, differs: set<string>)
    requires ScanFits(hits, fingerprints, differs)
    ensures !Identified(h) ==> ScanFits(hits + [h], fingerprints, differs)
    ensures Identified(h) ==>
              ScanFits(hits + [h], fingerprints[h.finding := h.fingerprint],
                       if h.finding in fingerprints && fingerprints[h.finding] != h.fingerprint then differs + {h.finding} else differs)
  {
    hide Identified, Differs, LastText;
    var more := hits + [h];
    var differs' := if Identified(h) && h.finding in fingerprints && fingerprints[h.finding] != h.fingerprint
                    then differs + {h.finding} else differs;
    assert forall i :: 0 <= i < |hits| ==> more[i] == hits[i];
    assert more[|hits|] == h;
    forall f | f in differs' ensures Differs(more, f) {
      MoreHits(hits, h, f);
      if f !in differs { NowDiffers(hits, h, fingerprints[f]); }
    }
    forall f | f in fingerprints ensures LastText(more, f, fingerprints[f]) { MoreHits(hits, h, f); }
    if Identified(h) { NowLast(hits, h); }
  }

  lemma NowDiffers(hits: seq<Hit>, h: Hit, fingerprint: string)
    requires Identified(h) && LastText(hits, h.finding, fingerprint) && fingerprint != h.fingerprint
    ensures Differs(hits + [h], h.finding)
  {
    var more := hits + [h];
    var i :| 0 <= i < |hits| && Identified(hits[i]) && hits[i].finding == h.finding && hits[i].fingerprint == fingerprint;
    assert Identified(more[i]) && Identified(more[|hits|]);
  }

  lemma NowLast(hits: seq<Hit>, h: Hit)
    requires Identified(h)
    ensures LastText(hits + [h], h.finding, h.fingerprint)
  {
    assert (hits + [h])[|hits|] == h;
  }

  /** It misses nothing: an identity is marked exactly when two texts of it came. */
  lemma ScanMeans(hits: seq<Hit>, fingerprints: map<string, string>, differs: set<string>, finding: string)
    requires ScanFits(hits, fingerprints, differs)
    ensures finding in differs <==> Differs(hits, finding)
  {
    hide ValidIdentity;
  }

  // ---------- What collapsing means ----------

  lemma {:induction false} GroupKeysDistinct(hits: seq<Hit>)
    ensures DistinctKeys(Groups(hits))
    decreases |hits|
  {
    if hits != [] {
      GroupKeysDistinct(hits[..|hits| - 1]);
      FindIs(Groups(hits[..|hits| - 1]), KeyOf(hits[|hits| - 1], |hits| - 1));
    }
  }

  /** `hits[m]` is the first of this group. */
  ghost predicate FirstOf(hits: seq<Hit>, key: Key, m: nat) {
    m < |hits| && KeyOf(hits[m], m) == key && forall k :: 0 <= k < m ==> KeyOf(hits[k], k) != key
  }

  ghost predicate HasKey(groups: seq<Group>, key: Key) { exists i :: 0 <= i < |groups| && groups[i].key == key }

  lemma JoinHas(groups: seq<Group>, h: Hit, key: Key)
    ensures HasKey(Join(groups, h, key), key)
    ensures forall k :: HasKey(groups, k) ==> HasKey(Join(groups, h, key), k)
  {
    KeysKept(groups, h, key);
    hide Join;
    forall k | HasKey(groups, k) ensures HasKey(Join(groups, h, key), k) {
      var i :| 0 <= i < |groups| && groups[i].key == k;
      assert Join(groups, h, key)[i].key == k;
    }
  }

  /** No copy is left out. */
  lemma {:induction false} EveryHitGrouped(hits: seq<Hit>)
    ensures forall k :: 0 <= k < |hits| ==> HasKey(Groups(hits), KeyOf(hits[k], k))
    decreases |hits|
  {
    hide KeyOf, HasKey, Join;
    if hits != [] {
      var n := |hits| - 1;
      EveryHitGrouped(hits[..n]);
      JoinHas(Groups(hits[..n]), hits[n], KeyOf(hits[n], n));
      forall k | 0 <= k < n ensures HasKey(Groups(hits), KeyOf(hits[k], k)) {
        assert hits[..n][k] == hits[k];
      }
    }
  }

  lemma KeyIsNew(hits: seq<Hit>, n: nat)
    requires n < |hits| && !HasKey(Groups(hits[..n]), KeyOf(hits[n], n))
    ensures FirstOf(hits, KeyOf(hits[n], n), n)
  {
    hide KeyOf, HasKey, Groups;
    EveryHitGrouped(hits[..n]);
    forall k | 0 <= k < n ensures KeyOf(hits[k], k) != KeyOf(hits[n], n) {
      assert hits[..n][k] == hits[k];
    }
  }

  lemma FirstStays(hits: seq<Hit>, n: nat, key: Key, m: nat)
    requires n <= |hits| && FirstOf(hits[..n], key, m)
    ensures FirstOf(hits, key, m)
  {
    hide KeyOf;
    assert forall k :: 0 <= k < n ==> hits[..n][k] == hits[k];
  }

  /** Groups stand in the order of their earliest copies. */
  lemma {:induction false} GroupsByFirstRank(hits: seq<Hit>) returns (firsts: seq<nat>)
    ensures |firsts| == |Groups(hits)|
    ensures forall i :: 0 <= i < |firsts| ==> FirstOf(hits, Groups(hits)[i].key, firsts[i])
    ensures forall i, j :: 0 <= i < j < |firsts| ==> firsts[i] < firsts[j]
    decreases |hits|
  {
    hide KeyOf, FirstOf, Join, HasKey;
    firsts := [];
    if hits != [] {
      var n := |hits| - 1;
      var before, key := Groups(hits[..n]), KeyOf(hits[n], n);
      firsts := GroupsByFirstRank(hits[..n]);
      RanksBelow(hits[..n], before, firsts);
      KeysKept(before, hits[n], key);
      forall i | 0 <= i < |firsts| ensures FirstOf(hits, before[i].key, firsts[i]) {
        FirstStays(hits, n, before[i].key, firsts[i]);
      }
      if Find(before, key) >= |before| {
        FindNone(before, key);
        KeyIsNew(hits, n);
        firsts := firsts + [n];
      }
    }
  }

  lemma RanksBelow(hits: seq<Hit>, groups: seq<Group>, firsts: seq<nat>)
    requires |firsts| == |groups| && forall i :: 0 <= i < |firsts| ==> FirstOf(hits, groups[i].key, firsts[i])
    ensures forall i :: 0 <= i < |firsts| ==> firsts[i] < |hits|
  {
    hide KeyOf;
  }

  lemma FindNone(groups: seq<Group>, key: Key)
    ensures Find(groups, key) >= |groups| <==> !HasKey(groups, key)
  {
    FindIs(groups, key);
  }

  lemma KeysKept(groups: seq<Group>, h: Hit, key: Key)
    ensures var after := Join(groups, h, key);
            |after| == (if Find(groups, key) < |groups| then |groups| else |groups| + 1)
            && (forall i :: 0 <= i < |groups| ==> after[i].key == groups[i].key)
            && Find(groups, key) < |after| && after[Find(groups, key)].key == key
  {
    FindIs(groups, key);
    hide AddPlaces, PlacesOf;
  }

  /** The group shows one of its own copies, and a local one if it has one. */
  ghost predicate ShowsMember(hits: seq<Hit>, g: Group) {
    (exists m :: 0 <= m < |hits| && KeyOf(hits[m], m) == g.key && hits[m] == g.shown)
    && ((exists m :: 0 <= m < |hits| && KeyOf(hits[m], m) == g.key && IsLocal(hits[m])) ==> IsLocal(g.shown))
  }

  lemma {:induction false} GroupsShowMembers(hits: seq<Hit>)
    ensures forall i :: 0 <= i < |Groups(hits)| ==> ShowsMember(hits, Groups(hits)[i])
    decreases |hits|
  {
    hide KeyOf, AddPlaces, PlacesOf, HasKey, ShowsMember;
    if hits != [] {
      var n := |hits| - 1;
      var before, h, key := Groups(hits[..n]), hits[n], KeyOf(hits[n], n);
      GroupsShowMembers(hits[..n]);
      GroupKeysDistinct(hits[..n]);
      FindIs(before, key);
      FindNone(before, key);
      forall i | 0 <= i < |Groups(hits)| ensures ShowsMember(hits, Groups(hits)[i]) {
        if i < |before| {
          assert ShowsMember(hits[..n], before[i]);
          MemberStays(hits, before[i], Groups(hits)[i]);
        } else {
          KeyIsNew(hits, n);
          NewMember(hits, Groups(hits)[i]);
        }
      }
    }
  }

  lemma MemberStays(hits: seq<Hit>, was: Group, now: Group)
    requires hits != [] && ShowsMember(hits[..|hits| - 1], was) && now.key == was.key
    requires now.shown == if KeyOf(hits[|hits| - 1], |hits| - 1) == was.key && IsLocal(hits[|hits| - 1]) && !IsLocal(was.shown)
                          then hits[|hits| - 1] else was.shown
    ensures ShowsMember(hits, now)
  {
    hide KeyOf;
    var n := |hits| - 1;
    var m :| 0 <= m < n && KeyOf(hits[..n][m], m) == was.key && hits[..n][m] == was.shown;
    assert KeyOf(hits[m], m) == was.key && hits[m] == was.shown;
    assert KeyOf(hits[n], n) == was.key ==> hits[n] == hits[n];
    forall k | 0 <= k < n && KeyOf(hits[k], k) == was.key && IsLocal(hits[k]) ensures IsLocal(was.shown) {
      assert KeyOf(hits[..n][k], k) == was.key && IsLocal(hits[..n][k]);
    }
  }

  lemma NewMember(hits: seq<Hit>, now: Group)
    requires hits != [] && now.key == KeyOf(hits[|hits| - 1], |hits| - 1) && now.shown == hits[|hits| - 1]
    requires forall m :: 0 <= m < |hits| - 1 ==> KeyOf(hits[m], m) != now.key
    ensures ShowsMember(hits, now)
  {
    hide KeyOf;
    assert KeyOf(hits[|hits| - 1], |hits| - 1) == now.key;
  }

  // ---------- Places, and collapsing twice ----------

  ghost predicate NoRepeats<T>(s: seq<T>) { forall i, j :: 0 <= i < j < |s| ==> s[i] != s[j] }

  lemma {:induction false} AddPlacesIs(places: seq<Location>, more: seq<Location>)
    requires NoRepeats(places)
    ensures NoRepeats(AddPlaces(places, more)) && |AddPlaces(places, more)| >= |places|
    ensures forall p :: p in AddPlaces(places, more) <==> p in places || p in more
    ensures places == [] && more != [] ==> AddPlaces(places, more) != []
    decreases |more|
  {
    if more != [] {
      AddPlacesIs(places, more[..|more| - 1]);
      assert more == more[..|more| - 1] + [more[|more| - 1]];
    }
  }

  lemma {:induction false} AddNothingTwice(more: seq<Location>)
    requires NoRepeats(more)
    ensures AddPlaces([], more) == more
    decreases |more|
  {
    if more != [] {
      var n := |more| - 1;
      AddNothingTwice(more[..n]);
      assert more == more[..n] + [more[n]];
    }
  }

  /** A group is at every place of every copy of it, each once. */
  ghost predicate PlacesFit(hits: seq<Hit>, g: Group) {
    NoRepeats(g.places) && g.places != []
    && forall p :: p in g.places <==> exists m :: 0 <= m < |hits| && KeyOf(hits[m], m) == g.key && p in PlacesOf(hits[m])
  }

  lemma PlacesStay(hits: seq<Hit>, was: Group, now: Group)
    requires hits != [] && PlacesFit(hits[..|hits| - 1], was) && now.key == was.key
    requires now.places == if KeyOf(hits[|hits| - 1], |hits| - 1) == was.key then AddPlaces(was.places, PlacesOf(hits[|hits| - 1]))
                           else was.places
    ensures PlacesFit(hits, now)
  {
    hide KeyOf, PlacesOf;
    var n := |hits| - 1;
    AddPlacesIs(was.places, PlacesOf(hits[n]));
    assert forall m :: 0 <= m < n ==> hits[..n][m] == hits[m];
    forall p | p in now.places ensures exists m :: 0 <= m < |hits| && KeyOf(hits[m], m) == now.key && p in PlacesOf(hits[m]) {
      if p in was.places {
        var m :| 0 <= m < n && KeyOf(hits[..n][m], m) == was.key && p in PlacesOf(hits[..n][m]);
        assert KeyOf(hits[m], m) == now.key;
      }
    }
    forall m, p | 0 <= m < |hits| && KeyOf(hits[m], m) == now.key && p in PlacesOf(hits[m]) ensures p in now.places {
      if m < n { assert KeyOf(hits[..n][m], m) == was.key && p in PlacesOf(hits[..n][m]); }
    }
  }

  lemma PlacesStart(hits: seq<Hit>, now: Group)
    requires hits != [] && FirstOf(hits, now.key, |hits| - 1) && now.places == AddPlaces([], PlacesOf(hits[|hits| - 1]))
    ensures PlacesFit(hits, now)
  {
    hide KeyOf;
    AddPlacesIs([], PlacesOf(hits[|hits| - 1]));
  }

  lemma {:induction false} GroupsKeepPlaces(hits: seq<Hit>)
    ensures forall i :: 0 <= i < |Groups(hits)| ==> PlacesFit(hits, Groups(hits)[i])
    decreases |hits|
  {
    hide KeyOf, AddPlaces, PlacesOf, HasKey, PlacesFit;
    if hits != [] {
      var n := |hits| - 1;
      var before, h, key := Groups(hits[..n]), hits[n], KeyOf(hits[n], n);
      GroupsKeepPlaces(hits[..n]);
      GroupKeysDistinct(hits[..n]);
      FindIs(before, key);
      FindNone(before, key);
      forall i | 0 <= i < |Groups(hits)| ensures PlacesFit(hits, Groups(hits)[i]) {
        if i < |before| {
          PlacesStay(hits, before[i], Groups(hits)[i]);
        } else {
          KeyIsNew(hits, n);
          PlacesStart(hits, Groups(hits)[i]);
        }
      }
    }
  }

  /** Every copy is in the result under its own key, or as itself if nothing identifies it, at
      exactly the places of all copies with that key, each once. */
  lemma CollapseKeepsPlaces(hits: seq<Hit>, out: seq<Hit>, m: nat) returns (i: nat)
    requires IsCollapsed(hits, out) && m < |hits|
    ensures i < |out|
    ensures if KeyOf(hits[m], m).Unknown? then out[i] == hits[m].(locations := out[i].locations, contentDiffers := out[i].contentDiffers)
            else KeyOf(out[i], i) == KeyOf(hits[m], m)
    ensures PlacesFit(hits, Group(KeyOf(hits[m], m), out[i], out[i].locations))
  {
    hide Groups, PlacesFit, Differs, PlacesOf, ValidIdentity;
    EveryHitGrouped(hits);
    GroupsKeepPlaces(hits);
    GroupsShowMembers(hits);
    i :| 0 <= i < |Groups(hits)| && Groups(hits)[i].key == KeyOf(hits[m], m);
    CollapsedKeys(hits, out, i);
    SamePlaces(hits, Groups(hits)[i], Group(KeyOf(hits[m], m), out[i], out[i].locations));
    assert ShowsMember(hits, Groups(hits)[i]);
  }

  lemma SamePlaces(hits: seq<Hit>, g: Group, h: Group)
    requires PlacesFit(hits, g) && h.key == g.key && h.places == g.places
    ensures PlacesFit(hits, h)
  {
  }

  /** What makes two hits copies of one text: one identity and fingerprint; without an identity one local
      path, or one address in one community; and a hit that nothing identifies is only itself. */
  predicate SameText(a: Hit, i: nat, b: Hit, j: nat) {
    if ValidIdentity(a.finding, a.fingerprint) || ValidIdentity(b.finding, b.fingerprint) then
      a.finding == b.finding && a.fingerprint == b.fingerprint
    else if a.source == "local" || b.source == "local" then a.source == b.source && a.path == b.path
    else if a.finding == "" || a.fingerprint == "" then i == j && (b.finding == "" || b.fingerprint == "")
    else a.service == b.service && a.community == b.community && a.finding == b.finding && a.fingerprint == b.fingerprint
  }

  lemma KeyMeans(a: Hit, i: nat, b: Hit, j: nat)
    ensures KeyOf(a, i) == KeyOf(b, j) <==> SameText(a, i, b, j)
  {
    hide ValidIdentity;
  }

  /** The text of a hit is among the results, or nothing identifies it and it is there itself. */
  ghost predicate ShownAt(h: Hit, m: nat, out: seq<Hit>, i: nat) {
    i < |out| && (SameText(h, m, out[i], i) || out[i] == h.(locations := out[i].locations, contentDiffers := out[i].contentDiffers))
  }

  ghost predicate IsShown(h: Hit, m: nat, out: seq<Hit>) { exists i: nat :: ShownAt(h, m, out, i) }

  lemma HitIsShown(hits: seq<Hit>, out: seq<Hit>, m: nat) returns (i: nat)
    requires IsCollapsed(hits, out) && m < |hits|
    ensures ShownAt(hits[m], m, out, i)
  {
    hide KeyOf, IsCollapsed, SameText, PlacesFit;
    i := CollapseKeepsPlaces(hits, out, m);
    KeyMeans(hits[m], m, out[i], i);
  }

  /** Every hit has its text among the results, and no text is there twice. */
  lemma CollapsedTexts(hits: seq<Hit>, out: seq<Hit>)
    requires IsCollapsed(hits, out)
    ensures forall i, j :: 0 <= i < j < |out| ==> !SameText(out[i], i, out[j], j)
    ensures forall m: nat :: m < |hits| ==> IsShown(hits[m], m, out)
  {
    hide KeyOf, IsCollapsed, SameText, PlacesFit, ShownAt;
    CollapsedDistinct(hits, out);
    forall i, j | 0 <= i < j < |out| ensures !SameText(out[i], i, out[j], j) { KeyMeans(out[i], i, out[j], j); }
    forall m: nat | m < |hits| ensures IsShown(hits[m], m, out) {
      var i := HitIsShown(hits, out, m);
    }
  }

  /** Two texts of one finding are never collapsed into one: both stay, each marked. */
  lemma TwoTextsStayTwo(hits: seq<Hit>, out: seq<Hit>, a: nat, b: nat) returns (i: nat, j: nat)
    requires IsCollapsed(hits, out) && a < |hits| && b < |hits|
    requires ValidIdentity(hits[a].finding, hits[a].fingerprint) && ValidIdentity(hits[b].finding, hits[b].fingerprint)
    requires hits[a].finding == hits[b].finding && hits[a].fingerprint != hits[b].fingerprint
    ensures i < |out| && j < |out| && i != j && out[i].finding == out[j].finding == hits[a].finding
    ensures out[i].fingerprint == hits[a].fingerprint && out[j].fingerprint == hits[b].fingerprint
    ensures out[i].contentDiffers && out[j].contentDiffers
  {
    hide PlacesFit, Groups, ValidIdentity;
    i := CollapseKeepsPlaces(hits, out, a);
    j := CollapseKeepsPlaces(hits, out, b);
    KeyMeans(hits[a], a, out[i], i);
    KeyMeans(hits[b], b, out[j], j);
    assert Differs(hits, hits[a].finding);
  }

  lemma CollapsedKeys(hits: seq<Hit>, out: seq<Hit>, i: nat)
    requires IsCollapsed(hits, out) && i < |out|
    ensures KeyOf(out[i], i) == if Groups(hits)[i].key.Unknown? then Unknown(i) else Groups(hits)[i].key
    ensures PlacesOf(out[i]) == out[i].locations == Groups(hits)[i].places && NoRepeats(out[i].locations)
    ensures exists m :: 0 <= m < |hits| && out[i].finding == hits[m].finding && out[i].fingerprint == hits[m].fingerprint
  {
    hide KeyOf, Groups, Differs, ShowsMember, PlacesFit, PlacesOf, NoRepeats;
    GroupsShowMembers(hits);
    GroupsKeepPlaces(hits);
    ShownKey(hits, Groups(hits)[i], out[i], i);
    ShownPlaces(hits, Groups(hits)[i], out[i]);
  }

  /** Showing a group keeps its key, unless that is the rank of a copy nothing identifies. */
  lemma ShownKey(hits: seq<Hit>, g: Group, h: Hit, i: nat)
    requires ShowsMember(hits, g) && h == g.shown.(locations := g.places, contentDiffers := h.contentDiffers)
    ensures KeyOf(h, i) == if g.key.Unknown? then Unknown(i) else g.key
    ensures exists m :: 0 <= m < |hits| && h.finding == hits[m].finding && h.fingerprint == hits[m].fingerprint
  {
    hide ValidIdentity;
    var m :| 0 <= m < |hits| && KeyOf(hits[m], m) == g.key && hits[m] == g.shown;
  }

  lemma ShownPlaces(hits: seq<Hit>, g: Group, h: Hit)
    requires PlacesFit(hits, g) && h.locations == g.places
    ensures PlacesOf(h) == h.locations && NoRepeats(h.locations)
  {
    hide KeyOf;
  }

  lemma CollapsedDistinct(hits: seq<Hit>, out: seq<Hit>)
    requires IsCollapsed(hits, out)
    ensures forall i, j :: 0 <= i < j < |out| ==> KeyOf(out[i], i) != KeyOf(out[j], j)
  {
    GroupKeysDistinct(hits);
    hide KeyOf, Groups;
    forall i, j | 0 <= i < j < |out| ensures KeyOf(out[i], i) != KeyOf(out[j], j) {
      CollapsedKeys(hits, out, i);
      CollapsedKeys(hits, out, j);
    }
  }

  lemma {:induction false} GroupsOfDistinct(out: seq<Hit>)
    requires forall i, j :: 0 <= i < j < |out| ==> KeyOf(out[i], i) != KeyOf(out[j], j)
    requires forall i :: 0 <= i < |out| ==> PlacesOf(out[i]) == out[i].locations && NoRepeats(out[i].locations)
    ensures |Groups(out)| == |out|
    ensures forall i :: 0 <= i < |out| ==> Groups(out)[i] == Group(KeyOf(out[i], i), out[i], out[i].locations)
    decreases |out|
  {
    hide KeyOf, PlacesOf, AddPlaces, NoRepeats, Join, Find;
    if out != [] {
      var n := |out| - 1;
      assert forall i :: 0 <= i < n ==> out[..n][i] == out[i];
      GroupsOfDistinct(out[..n]);
      JoinNew(Groups(out[..n]), out[n], KeyOf(out[n], n));
      AddNothingTwice(out[n].locations);
    }
  }

  lemma JoinNew(groups: seq<Group>, h: Hit, key: Key)
    requires forall i :: 0 <= i < |groups| ==> groups[i].key != key
    ensures Join(groups, h, key) == groups + [Group(key, h, AddPlaces([], PlacesOf(h)))]
  {
    FindIs(groups, key);
  }

  lemma DiffersCarries(hits: seq<Hit>, out: seq<Hit>, finding: string)
    requires IsCollapsed(hits, out) && Differs(out, finding)
    ensures Differs(hits, finding)
  {
    hide ValidIdentity, Groups;
    var i, j :| 0 <= i < |out| && 0 <= j < |out| && Identified(out[i]) && Identified(out[j])
                && out[i].finding == out[j].finding == finding && out[i].fingerprint != out[j].fingerprint;
    CollapsedKeys(hits, out, i);
    CollapsedKeys(hits, out, j);
    var a :| 0 <= a < |hits| && out[i].finding == hits[a].finding && out[i].fingerprint == hits[a].fingerprint;
    var b :| 0 <= b < |hits| && out[j].finding == hits[b].finding && out[j].fingerprint == hits[b].fingerprint;
    assert Identified(hits[a]) && Identified(hits[b]);
  }

  /** Collapsing what is collapsed changes nothing. */
  lemma CollapsingTwiceIsOnce(hits: seq<Hit>, out: seq<Hit>)
    requires IsCollapsed(hits, out)
    ensures IsCollapsed(out, out)
  {
    hide KeyOf, PlacesOf, NoRepeats, Differs, Groups;
    forall i | 0 <= i < |out| ensures PlacesOf(out[i]) == out[i].locations && NoRepeats(out[i].locations) {
      CollapsedKeys(hits, out, i);
    }
    CollapsedDistinct(hits, out);
    GroupsOfDistinct(out);
    forall i | 0 <= i < |out| ensures out[i] == ShownGroup(out, Groups(out)[i]) {
      if Differs(out, out[i].finding) { DiffersCarries(hits, out, out[i].finding); }
    }
  }

  // ---------- Interleaving sources ----------

  function BySource(hits: seq<Hit>, source: string): seq<Hit> {
    if hits == [] then []
    else
      var before, h := BySource(hits[..|hits| - 1], source), hits[|hits| - 1];
      if h.source == source then before + [h] else before
  }

  function Sources(hits: seq<Hit>): seq<string> {
    if hits == [] then []
    else
      var before, s := Sources(hits[..|hits| - 1]), hits[|hits| - 1].source;
      if s in before then before else before + [s]
  }

  /** Each source's hit of this rank, for the sources that have one. */
  function Round(hits: seq<Hit>, sources: seq<string>, rank: nat): seq<Hit> {
    if sources == [] then []
    else
      var n := |sources| - 1;
      var before, own := Round(hits, sources[..n], rank), BySource(hits, sources[n]);
      if rank < |own| then before + [own[rank]] else before
  }

  /** The rounds one after another, so a source's next hit always comes after this round's. */
  function Rounds(hits: seq<Hit>, ranks: nat): seq<Hit> {
    if ranks == 0 then [] else Rounds(hits, ranks - 1) + Round(hits, Sources(hits), ranks - 1)
  }

  /** What `ranks` rounds have taken of these sources. */
  function Taken(hits: seq<Hit>, sources: seq<string>, ranks: nat): multiset<Hit> {
    if sources == [] then multiset{}
    else
      var own := BySource(hits, sources[|sources| - 1]);
      Taken(hits, sources[..|sources| - 1], ranks) + multiset(own[..if ranks < |own| then ranks else |own|])
  }

  lemma {:induction false} TakenMore(hits: seq<Hit>, sources: seq<string>, rank: nat)
    ensures Taken(hits, sources, rank + 1) == Taken(hits, sources, rank) + multiset(Round(hits, sources, rank))
    decreases |sources|
  {
    hide BySource;
    if sources != [] {
      var n := |sources| - 1;
      TakenMore(hits, sources[..n], rank);
      OneMore(BySource(hits, sources[n]), rank, Round(hits, sources[..n], rank));
    }
  }

  /** One more of a source's own list, and one more in the round. */
  lemma OneMore(own: seq<Hit>, rank: nat, round: seq<Hit>)
    ensures multiset(own[..if rank + 1 < |own| then rank + 1 else |own|])
         == multiset(own[..if rank < |own| then rank else |own|]) + (if rank < |own| then multiset{own[rank]} else multiset{})
    ensures rank < |own| ==> multiset(round + [own[rank]]) == multiset(round) + multiset{own[rank]}
  {
    if rank < |own| { assert own[..rank + 1] == own[..rank] + [own[rank]]; }
  }

  lemma JoinCounts(a: seq<Hit>, b: seq<Hit>)
    ensures multiset(a + b) == multiset(a) + multiset(b)
  {
  }

  lemma {:induction false} RoundsTake(hits: seq<Hit>, ranks: nat)
    ensures multiset(Rounds(hits, ranks)) == Taken(hits, Sources(hits), ranks)
  {
    hide Sources, Round, BySource, Taken;
    if ranks == 0 {
      TakenNone(hits, Sources(hits));
    } else {
      RoundsTake(hits, ranks - 1);
      TakenMore(hits, Sources(hits), ranks - 1);
      JoinCounts(Rounds(hits, ranks - 1), Round(hits, Sources(hits), ranks - 1));
    }
  }

  lemma {:induction false} TakenNone(hits: seq<Hit>, sources: seq<string>)
    ensures Taken(hits, sources, 0) == multiset{}
    decreases |sources|
  {
    if sources != [] { TakenNone(hits, sources[..|sources| - 1]); }
  }

  /** All of these sources' hits, in their own order. */
  function AllOf(hits: seq<Hit>, sources: seq<string>): multiset<Hit> {
    if sources == [] then multiset{} else AllOf(hits, sources[..|sources| - 1]) + multiset(BySource(hits, sources[|sources| - 1]))
  }

  lemma {:induction false} TakenWithin(hits: seq<Hit>, sources: seq<string>, ranks: nat)
    ensures Taken(hits, sources, ranks) <= AllOf(hits, sources)
    ensures (forall s :: s in sources ==> |BySource(hits, s)| <= ranks) ==> Taken(hits, sources, ranks) == AllOf(hits, sources)
    decreases |sources|
  {
    hide BySource;
    if sources != [] {
      var n := |sources| - 1;
      TakenWithin(hits, sources[..n], ranks);
      assert sources == sources[..n] + [sources[n]];
      var own := BySource(hits, sources[n]);
      var k := if ranks < |own| then ranks else |own|;
      assert own == own[..k] + own[k..];
    }
  }

  lemma {:induction false} AllOfMore(hits: seq<Hit>, h: Hit, sources: seq<string>)
    requires NoRepeats(sources)
    ensures AllOf(hits + [h], sources) == AllOf(hits, sources) + (if h.source in sources then multiset{h} else multiset{})
    decreases |sources|
  {
    hide BySource;
    if sources != [] {
      var n := |sources| - 1;
      AllOfMore(hits, h, sources[..n]);
      assert sources == sources[..n] + [sources[n]];
      BySourceMore(hits, h, sources[n]);
    }
  }

  lemma BySourceMore(hits: seq<Hit>, h: Hit, source: string)
    ensures multiset(BySource(hits + [h], source))
         == multiset(BySource(hits, source)) + (if h.source == source then multiset{h} else multiset{})
  {
    assert (hits + [h])[..|hits|] == hits;
  }

  lemma {:induction false} AllOfNone(sources: seq<string>)
    ensures AllOf([], sources) == multiset{}
    decreases |sources|
  {
    if sources != [] { AllOfNone(sources[..|sources| - 1]); }
  }

  lemma {:induction false} AllOfUpTo(hits: seq<Hit>, n: nat, sources: seq<string>)
    requires n <= |hits| && NoRepeats(sources) && forall k :: 0 <= k < n ==> hits[k].source in sources
    ensures AllOf(hits[..n], sources) == multiset(hits[..n])
    decreases n
  {
    hide NoRepeats, AllOf;
    if n == 0 {
      AllOfNone(sources);
      assert hits[..0] == [];
    } else {
      AllOfUpTo(hits, n - 1, sources);
      AllOfMore(hits[..n - 1], hits[n - 1], sources);
      assert hits[..n] == hits[..n - 1] + [hits[n - 1]];
      JoinCounts(hits[..n - 1], [hits[n - 1]]);
    }
  }

  lemma {:induction false} SourcesAre(hits: seq<Hit>)
    ensures NoRepeats(Sources(hits)) && forall k :: 0 <= k < |hits| ==> hits[k].source in Sources(hits)
    decreases |hits|
  {
    if hits != [] {
      var n := |hits| - 1;
      SourcesAre(hits[..n]);
      assert forall k :: 0 <= k < n ==> hits[..n][k] == hits[k];
    }
  }

  lemma AllHits(hits: seq<Hit>)
    ensures AllOf(hits, Sources(hits)) == multiset(hits)
  {
    SourcesAre(hits);
    AllOfUpTo(hits, |hits|, Sources(hits));
    assert hits[..|hits|] == hits;
  }

  lemma {:induction false} RoundNotEmpty(hits: seq<Hit>, sources: seq<string>, rank: nat, s: string)
    requires s in sources && rank < |BySource(hits, s)|
    ensures Round(hits, sources, rank) != []
    decreases |sources|
  {
    hide BySource;
    var n := |sources| - 1;
    if sources[n] != s {
      assert sources == sources[..n] + [sources[n]];
      RoundNotEmpty(hits, sources[..n], rank, s);
    }
  }

  lemma {:induction false} BySourceIs(hits: seq<Hit>, source: string)
    ensures forall k :: 0 <= k < |BySource(hits, source)| ==> BySource(hits, source)[k].source == source
    decreases |hits|
  {
    if hits != [] { BySourceIs(hits[..|hits| - 1], source); }
  }

  /** The hit in place `i` is its own source's hit of this rank. */
  ghost predicate HasRank(hits: seq<Hit>, h: Hit, rank: nat) {
    rank < |BySource(hits, h.source)| && BySource(hits, h.source)[rank] == h
  }

  lemma {:induction false} RoundIs(hits: seq<Hit>, sources: seq<string>, rank: nat)
    requires NoRepeats(sources)
    ensures forall i :: 0 <= i < |Round(hits, sources, rank)| ==>
              Round(hits, sources, rank)[i].source in sources && HasRank(hits, Round(hits, sources, rank)[i], rank)
    ensures forall i, j :: 0 <= i < j < |Round(hits, sources, rank)| ==>
              Round(hits, sources, rank)[i].source != Round(hits, sources, rank)[j].source
    decreases |sources|
  {
    hide BySource;
    if sources != [] {
      var n := |sources| - 1;
      RoundIs(hits, sources[..n], rank);
      BySourceIs(hits, sources[n]);
      assert forall s :: s in sources[..n] ==> s in sources && s != sources[n];
    }
  }

  /** Blended, no source's hit comes before any source's hit of an earlier rank, and no place is given twice. */
  lemma {:induction false} RanksNeverFall(hits: seq<Hit>, ranks: nat) returns (rank: seq<nat>)
    ensures |rank| == |Rounds(hits, ranks)|
    ensures forall i :: 0 <= i < |rank| ==> rank[i] < ranks && HasRank(hits, Rounds(hits, ranks)[i], rank[i])
    ensures forall i, j :: 0 <= i < j < |rank| ==> rank[i] <= rank[j]
    ensures forall i, j :: 0 <= i < j < |rank| && Rounds(hits, ranks)[i].source == Rounds(hits, ranks)[j].source ==> rank[i] < rank[j]
  {
    hide HasRank, Round, Sources;
    if ranks == 0 {
      rank := [];
    } else {
      var before := RanksNeverFall(hits, ranks - 1);
      SourcesAre(hits);
      RoundIs(hits, Sources(hits), ranks - 1);
      rank := before + seq(|Round(hits, Sources(hits), ranks - 1)|, _ => ranks - 1);
    }
  }

  /** Blend the sources rank by rank until every hit is placed. */
  method InterleaveSources(hits: seq<Hit>) returns (out: seq<Hit>, ghost ranks: nat)
    ensures out == Rounds(hits, ranks) && multiset(out) == multiset(hits)
  {
    var groups, order := SplitSources(hits);
    out, ranks := [], 0;
    var rank := 0;
    AllHits(hits);
    RoundsTake(hits, 0);
    hide BySource, Sources, Taken, Round, AllOf;
    while |out| < |hits|
      invariant rank == ranks && out == Rounds(hits, rank) && multiset(out) == Taken(hits, order, rank)
      decreases |hits| - |out|
    {
      NotOver(hits, order, rank, out);
      var round := TakeRound(hits, groups, order, rank);
      out := out + round;
      rank := rank + 1;
      ranks := rank;
      RoundsTake(hits, rank);
    }
    Over(hits, order, rank, out);
  }

  lemma NotOver(hits: seq<Hit>, order: seq<string>, rank: nat, out: seq<Hit>)
    requires order == Sources(hits) && multiset(out) == Taken(hits, order, rank) && |out| < |hits|
    ensures Round(hits, order, rank) != []
  {
    AllHits(hits);
    TakenWithin(hits, order, rank);
    assert |multiset(out)| == |out| && |multiset(hits)| == |hits|;
    hide BySource, Round, Taken, AllOf, Sources;
    var s :| s in order && |BySource(hits, s)| > rank;
    RoundNotEmpty(hits, order, rank, s);
  }

  lemma Over(hits: seq<Hit>, order: seq<string>, rank: nat, out: seq<Hit>)
    requires order == Sources(hits) && multiset(out) == Taken(hits, order, rank) && |out| >= |hits|
    ensures multiset(out) == multiset(hits)
  {
    AllHits(hits);
    TakenWithin(hits, order, rank);
    hide Taken, AllOf, Sources;
    var left := multiset(hits) - multiset(out);
    assert multiset(out) + left == multiset(hits);
    assert |multiset(out)| == |out| && |multiset(hits)| == |hits|;
    assert |left| == 0;
  }

  method SplitSources(hits: seq<Hit>) returns (groups: map<string, seq<Hit>>, order: seq<string>)
    ensures order == Sources(hits) && forall s :: s in order ==> s in groups && groups[s] == BySource(hits, s)
  {
    groups, order := map[], [];
    assert hits[..0] == [];
    for i := 0 to |hits|
      invariant order == Sources(hits[..i]) && forall s :: s in groups <==> s in order
      invariant forall s :: s in groups ==> groups[s] == BySource(hits[..i], s)
      invariant forall s :: s !in groups ==> BySource(hits[..i], s) == []
    {
      assert hits[..i + 1][..i] == hits[..i];
      var h := hits[i];
      if h.source !in groups {
        order := order + [h.source];
        groups := groups[h.source := []];
      }
      groups := groups[h.source := groups[h.source] + [h]];
    }
    assert hits[..|hits|] == hits;
  }

  method TakeRound(ghost hits: seq<Hit>, groups: map<string, seq<Hit>>, order: seq<string>, rank: nat) returns (round: seq<Hit>)
    requires forall s :: s in order ==> s in groups && groups[s] == BySource(hits, s)
    ensures round == Round(hits, order, rank)
  {
    hide BySource;
    round := [];
    assert order[..0] == [];
    for i := 0 to |order|
      invariant round == Round(hits, order[..i], rank)
    {
      assert order[..i + 1][..i] == order[..i];
      assert order[i] in order;
      if rank < |groups[order[i]]| { round := round + [groups[order[i]][rank]]; }
    }
    assert order[..|order|] == order;
  }

  // ---------- The reconciliation window ----------

  datatype WindowKey = Finding(id: string) | Place(source: string, path: string, finding: string)

  function WindowKeyOf(h: Hit): WindowKey {
    if Identified(h) then Finding(h.finding) else Place(h.source, h.path, h.finding)
  }

  /** The first hit of every finding, in rank order. */
  function FirstOnly(hits: seq<Hit>): seq<Hit> {
    if hits == [] then []
    else
      var before, h := FirstOnly(hits[..|hits| - 1]), hits[|hits| - 1];
      if exists k :: 0 <= k < |hits| - 1 && WindowKeyOf(hits[k]) == WindowKeyOf(h) then before else before + [h]
  }

  ghost predicate Found(hits: seq<Hit>, key: WindowKey) { exists k :: 0 <= k < |hits| && WindowKeyOf(hits[k]) == key }

  lemma FoundMore(hits: seq<Hit>, key: WindowKey)
    requires hits != []
    ensures Found(hits, key) <==> Found(hits[..|hits| - 1], key) || key == WindowKeyOf(hits[|hits| - 1])
  {
    hide WindowKeyOf;
    var n := |hits| - 1;
    assert forall k :: 0 <= k < n ==> hits[..n][k] == hits[k];
  }

  lemma FirstOnlyNext(hits: seq<Hit>)
    requires hits != []
    ensures var n := |hits| - 1;
            FirstOnly(hits) == if Found(hits[..n], WindowKeyOf(hits[n])) then FirstOnly(hits[..n]) else FirstOnly(hits[..n]) + [hits[n]]
  {
    hide WindowKeyOf;
    var n := |hits| - 1;
    assert forall k :: 0 <= k < n ==> hits[..n][k] == hits[k];
  }

  /** One hit for every finding there is, and for no other. */
  lemma {:induction false} FirstOnlyFinds(hits: seq<Hit>, key: WindowKey)
    ensures Found(FirstOnly(hits), key) <==> Found(hits, key)
    decreases |hits|
  {
    hide WindowKeyOf, FirstOnly;
    if hits == [] {
      FirstOnlyEmpty();
    } else {
      var n := |hits| - 1;
      FirstOnlyFinds(hits[..n], key);
      FirstOnlyNext(hits);
      FoundMore(hits, key);
      hide Found;
      FoundLast(FirstOnly(hits[..n]), hits[n], key);
    }
  }

  lemma FirstOnlyEmpty()
    ensures FirstOnly([]) == []
  {
  }

  lemma FoundLast(hits: seq<Hit>, h: Hit, key: WindowKey)
    ensures Found(hits + [h], key) <==> Found(hits, key) || key == WindowKeyOf(h)
  {
    hide WindowKeyOf;
    assert (hits + [h])[..|hits|] == hits;
    FoundMore(hits + [h], key);
  }

  lemma {:induction false} FirstOnlyDistinct(hits: seq<Hit>)
    ensures forall i, j :: 0 <= i < j < |FirstOnly(hits)| ==> WindowKeyOf(FirstOnly(hits)[i]) != WindowKeyOf(FirstOnly(hits)[j])
    ensures forall i :: 0 <= i < |FirstOnly(hits)| ==> FirstOnly(hits)[i] in hits
    decreases |hits|
  {
    hide WindowKeyOf, FirstOnly;
    if hits == [] {
      FirstOnlyEmpty();
    } else {
      var n := |hits| - 1;
      FirstOnlyDistinct(hits[..n]);
      FirstOnlyNext(hits);
      FirstOnlyFinds(hits[..n], WindowKeyOf(hits[n]));
    }
  }

  /** Identified hits are of one finding by its identity; others only from one place of one source. */
  predicate SameFinding(a: Hit, b: Hit) {
    a.finding == b.finding
    && if ValidIdentity(a.finding, a.fingerprint) || ValidIdentity(b.finding, b.fingerprint) then
         ValidIdentity(a.finding, a.fingerprint) && ValidIdentity(b.finding, b.fingerprint)
       else a.source == b.source && a.path == b.path
  }

  lemma WindowKeyMeans(a: Hit, b: Hit)
    ensures WindowKeyOf(a) == WindowKeyOf(b) <==> SameFinding(a, b)
  {
    hide ValidIdentity;
  }

  ghost predicate InWindow(window: seq<Hit>, h: Hit) { exists i :: 0 <= i < |window| && SameFinding(window[i], h) }

  /** Every hit's finding is in the window, none twice, and nothing else is. */
  lemma WindowFindings(hits: seq<Hit>)
    ensures forall i, j :: 0 <= i < j < |FirstOnly(hits)| ==> !SameFinding(FirstOnly(hits)[i], FirstOnly(hits)[j])
    ensures forall m :: 0 <= m < |hits| ==> InWindow(FirstOnly(hits), hits[m])
    ensures forall h :: h in FirstOnly(hits) ==> h in hits
  {
    hide WindowKeyOf, SameFinding, FirstOnly;
    var window := FirstOnly(hits);
    FirstOnlyDistinct(hits);
    forall i, j | 0 <= i < j < |window| ensures !SameFinding(window[i], window[j]) { WindowKeyMeans(window[i], window[j]); }
    forall m | 0 <= m < |hits| ensures InWindow(window, hits[m]) {
      FirstOnlyFinds(hits, WindowKeyOf(hits[m]));
      assert Found(hits, WindowKeyOf(hits[m]));
      var k :| 0 <= k < |window| && WindowKeyOf(window[k]) == WindowKeyOf(hits[m]);
      WindowKeyMeans(window[k], hits[m]);
    }
  }

  lemma {:induction false} FirstOnlyGrows(hits: seq<Hit>, n: nat)
    requires n <= |hits|
    ensures FirstOnly(hits[..n]) <= FirstOnly(hits)
    decreases |hits|
  {
    if n < |hits| {
      FirstOnlyGrows(hits[..|hits| - 1], n);
      assert hits[..|hits| - 1][..n] == hits[..n];
    } else {
      assert hits[..n] == hits;
    }
  }

  /** The first `limit` findings; a limit below one sets no bound. */
  method CandidateWindow(hits: seq<Hit>, limit: int) returns (out: seq<Hit>)
    ensures out == if 0 < limit < |FirstOnly(hits)| then FirstOnly(hits)[..limit] else FirstOnly(hits)
  {
    hide WindowKeyOf, FirstOnly, Found;
    out := [];
    var seen: set<WindowKey> := {};
    WindowStart(hits);
    var i := 0;
    while i < |hits|
      invariant 0 <= i <= |hits| && out == FirstOnly(hits[..i]) && (limit > 0 ==> |out| < limit)
      invariant forall k :: k in seen <==> Found(hits[..i], k)
    {
      var key := WindowKeyOf(hits[i]);
      WindowNext(hits, i);
      FirstOnlyGrows(hits, i + 1);
      if key !in seen {
        seen := seen + {key};
        out := out + [hits[i]];
        if |out| == limit { return; }
      }
      i := i + 1;
    }
    assert hits[..i] == hits;
  }

  lemma WindowStart(hits: seq<Hit>)
    ensures FirstOnly(hits[..0]) == [] && forall k :: !Found(hits[..0], k)
  {
  }

  lemma WindowNext(hits: seq<Hit>, i: nat)
    requires i < |hits|
    ensures FirstOnly(hits[..i + 1])
         == if Found(hits[..i], WindowKeyOf(hits[i])) then FirstOnly(hits[..i]) else FirstOnly(hits[..i]) + [hits[i]]
    ensures forall k :: Found(hits[..i + 1], k) <==> Found(hits[..i], k) || k == WindowKeyOf(hits[i])
  {
    hide WindowKeyOf, FirstOnly, Found;
    assert hits[..i + 1][..i] == hits[..i];
    FirstOnlyNext(hits[..i + 1]);
    forall k ensures Found(hits[..i + 1], k) <==> Found(hits[..i], k) || k == WindowKeyOf(hits[i]) {
      FoundMore(hits[..i + 1], k);
    }
  }

  /** Where an identity first comes. */
  function FirstPlace(hits: seq<Hit>, id: string): nat {
    if hits == [] || (Identified(hits[0]) && hits[0].finding == id) then 0 else 1 + FirstPlace(hits[1..], id)
  }

  lemma {:induction false} FirstPlaceIs(hits: seq<Hit>, id: string)
    ensures FirstPlace(hits, id) <= |hits|
    ensures FirstPlace(hits, id) < |hits| ==> Identified(hits[FirstPlace(hits, id)]) && hits[FirstPlace(hits, id)].finding == id
    ensures forall k :: 0 <= k < FirstPlace(hits, id) ==> !(Identified(hits[k]) && hits[k].finding == id)
  {
    if hits != [] && !(Identified(hits[0]) && hits[0].finding == id) {
      FirstPlaceIs(hits[1..], id);
      assert forall k :: 0 < k < |hits| ==> hits[k] == hits[1..][k - 1];
    }
  }

  /** Each identity once, in the order they first came. */
  method CandidateIdentityIDs(hits: seq<Hit>) returns (ids: seq<string>)
    ensures forall id :: id in ids <==> exists k :: 0 <= k < |hits| && Identified(hits[k]) && hits[k].finding == id
    ensures forall a, b :: 0 <= a < b < |ids| ==> FirstPlace(hits, ids[a]) < FirstPlace(hits, ids[b])
  {
    hide Identified, FirstPlace;
    ids := [];
    var seen: set<string> := {};
    for i := 0 to |hits|
      invariant forall id :: id in seen <==> id in ids
      invariant forall id :: id in ids <==> exists k :: 0 <= k < i && Identified(hits[k]) && hits[k].finding == id
      invariant forall a :: 0 <= a < |ids| ==> FirstPlace(hits, ids[a]) < i
      invariant forall a, b :: 0 <= a < b < |ids| ==> FirstPlace(hits, ids[a]) < FirstPlace(hits, ids[b])
    {
      if Identified(hits[i]) && hits[i].finding !in seen {
        FirstPlaceIs(hits, hits[i].finding);
        ids := ids + [hits[i].finding];
        seen := seen + {hits[i].finding};
      }
    }
  }
}

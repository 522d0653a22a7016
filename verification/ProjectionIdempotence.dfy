/** Projecting twice: when the second pass finds nothing more to remove.

  Two runs are compared line by line: over the original, and over what the first one kept.
  They can part only where a removed section lay between a kept line and a kept ruler.
 */
module ProjectionIdempotence {
  import opened TextLines
  import opened KnowledgeProjection

  // ---------- Every line goes to one place ----------

  /** The kept and removed lines keep their order: line `i` comes where those of its fate before it end. */
  lemma {:induction false} EachLineInItsPlace(lines: seq<string>, i: nat, n: nat)
    requires i < n <= |lines|
    ensures var fate := FateAt(lines, i); |Those(lines, fate, i)| < |Those(lines, fate, n)|
                                          && Those(lines, fate, n)[|Those(lines, fate, i)|] == lines[i]
    decreases n
  {
    hide Step;
    if i < n - 1 { EachLineInItsPlace(lines, i, n - 1); }
  }

  /** And nothing else is there. */
  lemma {:induction false} EveryLineOnce(lines: seq<string>, n: nat)
    requires n <= |lines|
    ensures multiset(Those(lines, Kept, n)) + multiset(Those(lines, Removed, n)) + multiset(Those(lines, Metadata, n))
         == multiset(lines[..n])
  {
    hide Step;
    if n == 0 {
      assert lines[..0] == [];
    } else {
      EveryLineOnce(lines, n - 1);
      assert lines[..n] == lines[..n - 1] + [lines[n - 1]];
      var k, r, d := Those(lines, Kept, n - 1), Those(lines, Removed, n - 1), Those(lines, Metadata, n - 1);
      var x := lines[n - 1];
      hide *;
      assert multiset(k + [x]) == multiset(k) + multiset{x};
      assert multiset(r + [x]) == multiset(r) + multiset{x};
      assert multiset(d + [x]) == multiset(d) + multiset{x};
    }
  }

  /** Only the frontmatter drops lines unseen. */
  lemma BodyNeverDrops(lines: seq<string>, i: nat)
    requires i < |lines| && FateAt(lines, i) == Metadata
    ensures ModeAt(lines, i).front
  {
  }

  // ---------- The second run beside the first ----------

  function Count(lines: seq<string>, i: nat): nat
    requires i <= |lines|
  {
    |Those(lines, Kept, i)|
  }

  /** Where the next kept line from `i` on is. */
  lemma {:induction false} NextKept(lines: seq<string>, i: nat, n: nat) returns (q: nat)
    requires i <= n <= |lines| && Count(lines, i) < Count(lines, n)
    ensures i <= q < n && FateAt(lines, q) == Kept && Count(lines, q) == Count(lines, i)
    ensures forall r :: i <= r < q ==> FateAt(lines, r) != Kept
    decreases n - i
  {
    hide Step;
    if FateAt(lines, i) == Kept {
      q := i;
    } else {
      q := NextKept(lines, i + 1, n);
    }
  }

  lemma {:induction false} CountGrows(lines: seq<string>, i: nat, n: nat)
    requires i <= n <= |lines|
    ensures Count(lines, i) <= Count(lines, n)
    decreases n
  {
    hide Step;
    if i < n { CountGrows(lines, i, n - 1); }
  }

  /** A line that reads like an evidence title, kept, right before a removed section that ends in a ruler. */
  ghost predicate ExposedAt(lines: seq<string>, o: nat, q: nat) {
    o + 1 < q < |lines| && FateAt(lines, o) == Kept && EvidenceTitle(Trim(lines[o]))
    && (forall r :: o < r < q ==> FateAt(lines, r) == Removed)
    && FateAt(lines, q) == Kept && Ruler(lines[q])
  }

  ghost predicate Exposed(lines: seq<string>) { exists o, q :: ExposedAt(lines, o, q) }

  /** An underline is expected only under a title, so only at a ruler, outside any fence. */
  lemma {:induction false} UnderlineMeansRuler(lines: seq<string>, i: nat)
    requires i <= |lines|
    ensures ModeAt(lines, i).underline ==>
              i < |lines| && Ruler(lines[i]) && !ModeAt(lines, i).front && ModeAt(lines, i).fence == ""
    decreases i
  {
    hide Ruler, Step, ModeAt;
    if i > 0 {
      UnderlineMeansRuler(lines, i - 1);
      UnderlineStep(ModeAt(lines, i - 1), i - 1, lines[i - 1], NextLine(lines, i - 1));
      ModeBehind(lines, i);
    } else {
      ModeAtStart(lines);
    }
  }

  lemma ModeAtStart(lines: seq<string>)
    ensures ModeAt(lines, 0) == START
  {
  }

  lemma ModeBehind(lines: seq<string>, i: nat)
    requires 0 < i <= |lines|
    ensures ModeAt(lines, i) == Step(ModeAt(lines, i - 1), i - 1, lines[i - 1], NextLine(lines, i - 1)).mode
    ensures i == 1 ==> ModeAt(lines, i - 1) == START
  {
    hide Step;
  }

  lemma UnderlineStep(m: Mode, i: nat, line: string, next: Option<string>)
    requires m.underline ==> Ruler(line) && !m.front && m.fence == ""
    ensures var m' := Step(m, i, line, next).mode;
            m'.underline && !(i == 0 && Trim(line) == "---") ==> next.Some? && Ruler(next.value) && !m'.front && m'.fence == ""
    ensures i == 0 && m == START && Trim(line) == "---" ==> !Step(m, i, line, next).mode.underline
  {
    if m.underline { RulerIsPlain(line); }
    SetextBelow(line, next);
    hide HeadingOf, Ruler, EvidenceTitle, NextFence;
  }

  /** A ruler is no fence, no hashed heading, and no title that matters. */
  lemma RulerIsPlain(line: string)
    requires Ruler(line)
    ensures !IsFence(Trim(line)) && !Hashed(line) && !EvidenceTitle(Trim(line))
  {
    RulerFirst(line);
    LowerFirst(Trim(line));
  }

  lemma LowerFirst(s: string)
    requires s != []
    ensures Lower(s) != [] && Lower(s)[0] == if 'A' <= s[0] <= 'Z' then (s[0] as int + 32) as char else s[0]
  {
  }

  lemma {:induction false} RulerFirst(line: string)
    requires Ruler(line)
    ensures Trim(line)[0] == '=' || Trim(line)[0] == '-'
    ensures DropSpaces(line) != "" ==> DropSpaces(line)[0] != '#'
  {
    SpacesDropped(line);
  }

  /** Dropping leading spaces leaves the trimmed text. */
  lemma {:induction false} SpacesDropped(line: string)
    ensures Trim(DropSpaces(line)) == Trim(line)
    ensures DropSpaces(line) != "" && !IsSpace(DropSpaces(line)[0]) ==> Trim(line) != "" && Trim(line)[0] == DropSpaces(line)[0]
  {
    if line != [] && line[0] == ' ' {
      SpacesDropped(line[1..]);
      assert DropSpaces(line) == DropSpaces(line[1..]);
    } else {
      assert DropSpaces(line) == line;
      TrimRightIs(line);
    }
  }

  /** How the two runs stand at line `i` of the first. */
  ghost predicate Beside(lines: seq<string>, i: nat, kept: seq<string>)
    requires i <= |lines| && kept == KeptLines(lines)
  {
    var m1, c := ModeAt(lines, i), Count(lines, i);
    c <= |kept|
    && var m2 := ModeAt(kept, c);
       if m1.front then m2.front && !m2.evidence && !m2.underline && m2.skip == 0 && m2.fence == "" && m1.fence == "" && m1.skip == 0
       else !m2.front && m2.skip == 0 && m2.fence == (if m1.skip == 0 then m1.fence else "")
            && (m2.underline ==> c < |kept| && Ruler(kept[c]))
  }

  lemma CountAtMost(lines: seq<string>, i: nat)
    requires i <= |lines|
    ensures Count(lines, i) <= |KeptLines(lines)|
    ensures i < |lines| && FateAt(lines, i) == Kept ==>
              Count(lines, i + 1) == Count(lines, i) + 1 <= |KeptLines(lines)| && KeptLines(lines)[Count(lines, i)] == lines[i]
  {
    hide Step;
    CountGrows(lines, i, |lines|);
    if i < |lines| && FateAt(lines, i) == Kept {
      EachLineInItsPlace(lines, i, |lines|);
    }
  }

  lemma {:induction false} FirstIsFirst(lines: seq<string>, i: nat)
    requires i < |lines| && Trim(lines[0]) == "---" && i > 0
    ensures Count(lines, i) > 0 && ModeAt(lines, 1).front
  {
    hide BodyStep, FrontStep;
    assert OutcomeAt(lines, 0) == Outcome(START.(front := true), Kept, None);
    assert Those(lines, Kept, 0) == [];
    hide Step;
    assert Count(lines, 1) == 1;
    CountGrows(lines, 1, i);
  }

  /** A line the first run drops leaves the second where it was. */
  lemma DroppedKeepsBeside(lines: seq<string>, i: nat, kept: seq<string>)
    requires i < |lines| && Trim(lines[0]) == "---" && kept == KeptLines(lines) && Beside(lines, i, kept)
    requires FateAt(lines, i) != Kept
    ensures Beside(lines, i + 1, kept)
  {
    assert Count(lines, i + 1) == Count(lines, i);
    hide HeadingOf, NextFence, EvidenceTitle, EvidenceContinues;
  }

  /** A line both runs keep takes both to corresponding modes. */
  lemma KeptKeepsBeside(lines: seq<string>, i: nat, kept: seq<string>)
    requires i < |lines| && Trim(lines[0]) == "---" && kept == KeptLines(lines) && Beside(lines, i, kept)
    requires FateAt(lines, i) == Kept && Count(lines, i) < |kept| && FateAt(kept, Count(lines, i)) == Kept
    ensures Beside(lines, i + 1, kept)
  {
    CountAtMost(lines, i);
    var c := Count(lines, i);
    if i > 0 { FirstIsFirst(lines, i); }
    if ModeAt(lines, i).underline { UnderlineMeansRuler(lines, i); RulerIsPlain(lines[i]); }
    if ModeAt(kept, c).underline { RulerIsPlain(kept[c]); }
    SetextBelow(kept[c], NextLine(kept, c));
    hide HeadingOf, NextFence, EvidenceTitle, EvidenceContinues, Ruler, Hashed;
  }

  lemma SetextBelow(line: string, next: Option<string>)
    ensures HeadingOf(line, next).setext ==> next.Some? && Ruler(next.value)
    ensures HeadingOf(line, next).level > 0 && HeadingOf(line, next).setext ==> !Hashed(line) && HeadingOf(line, next).title == Trim(line)
    ensures Hashed(line) ==> HeadingOf(line, next) == AtxHeading(line)
  {
  }

  /** What the second run drops of the body starts a section, and what starts one is nothing else. */
  predicate StartsSection(line: string, next: Option<string>) {
    HeadingOf(line, next).level > 0 && EvidenceTitle(HeadingOf(line, next).title)
  }

  lemma KeptUnlessSection(m: Mode, i: nat, line: string, next: Option<string>)
    requires m.skip == 0 && !m.front && !(i == 0 && Trim(line) == "---")
    requires m.underline ==> !IsFence(Trim(line))
    ensures Step(m, i, line, next).fate == Kept <==>
              !(!IsFence(Trim(line)) && !m.underline && m.fence == "" && StartsSection(line, next))
  {
    hide HeadingOf, EvidenceTitle, NextFence;
  }

  /** A kept line outside fences and not an underline started no section. */
  lemma KeptStartsNone(m: Mode, i: nat, line: string, next: Option<string>)
    requires !m.front && !(i == 0 && Trim(line) == "---") && Step(m, i, line, next).fate == Kept
    requires !IsFence(Trim(line)) && !m.underline && m.fence == ""
    ensures !StartsSection(line, next)
  {
    hide HeadingOf, EvidenceTitle;
  }

  lemma SectionDependsOnRuler(line: string, next: Option<string>, other: Option<string>)
    requires StartsSection(line, next) && !StartsSection(line, other)
    ensures next.Some? && Ruler(next.value) && EvidenceTitle(Trim(line)) && !Hashed(line)
    ensures other.None? || !Ruler(other.value)
  {
    SetextBelow(line, next);
    SetextBelow(line, other);
  }

  lemma KeptOutside(lines: seq<string>, i: nat)
    requires i < |lines| && FateAt(lines, i) == Kept && !ModeAt(lines, i).front && !(i == 0 && Trim(lines[i]) == "---")
    requires ModeAt(lines, i).skip > 0
    ensures ModeAt(lines, i).fence == "" && !ModeAt(lines, i).underline && !IsFence(Trim(lines[i]))
  {
    hide HeadingOf, EvidenceTitle, NextFence;
  }

  /** Between two neighbouring kept lines of the body there is only removed material. */
  lemma {:induction false} OnlyRemovedBetween(lines: seq<string>, i: nat, q: nat)
    requires i <= q < |lines| && !ModeAt(lines, i).front && i > 0 && forall r :: i <= r < q ==> FateAt(lines, r) != Kept
    ensures (forall r :: i <= r < q ==> FateAt(lines, r) == Removed) && !ModeAt(lines, q).front
    decreases q
  {
    if i < q {
      OnlyRemovedBetween(lines, i, q - 1);
      StaysInBody(lines, q - 1);
    }
  }

  lemma StaysInBody(lines: seq<string>, i: nat)
    requires 0 < i < |lines| && !ModeAt(lines, i).front
    ensures !ModeAt(lines, i + 1).front && FateAt(lines, i) != Metadata
  {
    hide HeadingOf, EvidenceTitle, NextFence;
  }

  /** The neighbours of a kept line: in the first run and among what it kept. */
  lemma ExposedHere(lines: seq<string>, i: nat, kept: seq<string>)
    requires i < |lines| && kept == KeptLines(lines) && FateAt(lines, i) == Kept
    requires !ModeAt(lines, i).front && i > 0 && EvidenceTitle(Trim(lines[i]))
    requires Count(lines, i) + 1 < |kept| && Ruler(kept[Count(lines, i) + 1])
    requires i + 1 < |lines| ==> !Ruler(lines[i + 1])
    ensures exists q :: ExposedAt(lines, i, q)
  {
    hide Step, Ruler, EvidenceTitle;
    CountAtMost(lines, i);
    var q := NextKept(lines, i + 1, |lines|);
    CountAtMost(lines, q);
    assert kept[Count(lines, i) + 1] == lines[q];
    StaysInBody(lines, i);
    OnlyRemovedBetween(lines, i + 1, q);
    assert ExposedAt(lines, i, q);
  }

  /** What the first run keeps, the second keeps, unless it is exposed there. */
  lemma KeptAgain(lines: seq<string>, i: nat, kept: seq<string>)
    requires i < |lines| && Trim(lines[0]) == "---" && kept == KeptLines(lines) && Beside(lines, i, kept)
    requires FateAt(lines, i) == Kept && Count(lines, i) < |kept|
    ensures FateAt(kept, Count(lines, i)) != Kept ==> exists q :: ExposedAt(lines, i, q)
  {
    CountAtMost(lines, i);
    var m1, c := ModeAt(lines, i), Count(lines, i);
    var m2, line := ModeAt(kept, c), kept[c];
    if i > 0 && !m1.front && FateAt(kept, c) != Kept {
      FirstIsFirst(lines, i);
      if m2.underline { RulerIsPlain(line); }
      KeptUnlessSection(m2, c, line, NextLine(kept, c));
      UnderlineMeansRuler(lines, i);
      if m1.skip > 0 { KeptOutside(lines, i); }
      hide HeadingOf, EvidenceTitle, NextFence, ExposedAt, Hashed, Ruler, Step;
      if m1.underline {
        RulerIsPlain(line);
        SectionOfRuler(line, NextLine(kept, c));
      } else {
        KeptStartsNone(m1, i, line, NextLine(lines, i));
        SectionDependsOnRuler(line, NextLine(kept, c), NextLine(lines, i));
        ExposedHere(lines, i, kept);
      }
    }
  }

  lemma SectionOfRuler(line: string, next: Option<string>)
    requires Ruler(line)
    ensures !StartsSection(line, next)
  {
    RulerIsPlain(line);
    SetextBelow(line, next);
  }

  // ---------- The second run over the kept lines ----------

  ghost predicate AllKept(lines: seq<string>) { forall j :: 0 <= j < |lines| ==> FateAt(lines, j) == Kept }

  lemma {:induction false} BesideAt(lines: seq<string>, i: nat, kept: seq<string>)
    requires i <= |lines| && lines != [] && Trim(lines[0]) == "---" && kept == KeptLines(lines)
    requires forall j :: 0 <= j < Count(lines, i) && j < |kept| ==> FateAt(kept, j) == Kept
    ensures Beside(lines, i, kept)
    decreases i
  {
    hide Step;
    if i > 0 {
      CountGrows(lines, i - 1, i);
      CountAtMost(lines, i - 1);
      BesideAt(lines, i - 1, kept);
      hide Beside;
      if FateAt(lines, i - 1) == Kept {
        KeptKeepsBeside(lines, i - 1, kept);
      } else {
        DroppedKeepsBeside(lines, i - 1, kept);
      }
    }
  }

  lemma EvidenceIsPlain(line: string)
    requires EvidenceTitle(Trim(line))
    ensures !IsFence(Trim(line)) && !Hashed(line) && !Ruler(line) && Trim(line) != "" && Trim(line) != "---"
  {
    LowerFirst(Trim(line));
    SpacesDropped(line);
  }

  lemma PlainStep(m: Mode, i: nat, line: string, next: Option<string>)
    requires EvidenceTitle(Trim(line)) && Step(m, i, line, next).fate == Kept
    ensures var m' := Step(m, i, line, next).mode;
            m'.front == m.front && (!m.front && m.skip == 0 ==> m'.skip == 0 && m'.fence == m.fence)
            && (!m.front ==> m'.skip == 0)
  {
    EvidenceIsPlain(line);
    hide HeadingOf, EvidenceTitle, NextFence, IsFence;
  }

  lemma RemovedStep(m: Mode, i: nat, line: string, next: Option<string>)
    requires Step(m, i, line, next).fate == Removed
    ensures !m.front && (m.skip == 0 ==> m.fence == "")
  {
    hide HeadingOf, EvidenceTitle, NextFence;
  }

  /** What comes right before a removed section is outside the frontmatter and any fence. */
  lemma BeforeSection(lines: seq<string>, o: nat)
    requires o + 1 < |lines| && FateAt(lines, o) == Kept && FateAt(lines, o + 1) == Removed && EvidenceTitle(Trim(lines[o]))
    ensures !ModeAt(lines, o).front && (ModeAt(lines, o).skip == 0 ==> ModeAt(lines, o).fence == "")
  {
    hide Step, EvidenceTitle;
    PlainStep(ModeAt(lines, o), o, lines[o], NextLine(lines, o));
    RemovedStep(ModeAt(lines, o + 1), o + 1, lines[o + 1], NextLine(lines, o + 1));
  }

  lemma ExposedDrops(lines: seq<string>, o: nat, q: nat, kept: seq<string>)
    requires ExposedAt(lines, o, q) && Trim(lines[0]) == "---" && kept == KeptLines(lines) && Beside(lines, o, kept)
    ensures Count(lines, o) < |kept| && FateAt(kept, Count(lines, o)) != Kept
  {
    hide Step, EvidenceTitle, ModeAt, IsFence, Hashed, Trim;
    CountAtMost(lines, o);
    CountAtMost(lines, q);
    SameCount(lines, o + 1, q);
    var c := Count(lines, o);
    assert kept[c + 1] == lines[q];
    EvidenceIsPlain(lines[o]);
    BeforeSection(lines, o);
    KeptUnlessSection(ModeAt(kept, c), c, kept[c], NextLine(kept, c));
  }

  lemma {:induction false} SameCount(lines: seq<string>, i: nat, q: nat)
    requires i <= q <= |lines| && forall r :: i <= r < q ==> FateAt(lines, r) != Kept
    ensures Count(lines, q) == Count(lines, i)
    decreases q
  {
    hide Step;
    if i < q { SameCount(lines, i, q - 1); }
  }

  /** The kept line `j` and where it came from. */
  lemma WhereFrom(lines: seq<string>, j: nat) returns (i: nat)
    requires j < |KeptLines(lines)|
    ensures i < |lines| && FateAt(lines, i) == Kept && Count(lines, i) == j && KeptLines(lines)[j] == lines[i]
    ensures j + 1 < |KeptLines(lines)| ==> i + 1 < |lines|
  {
    hide Step;
    i := 0;
    while Count(lines, i) < j || FateAt(lines, i) != Kept
      invariant i < |lines| && Count(lines, i) <= j < Count(lines, |lines|)
      decreases |lines| - i
    {
      i := i + 1;
    }
    CountAtMost(lines, i);
  }

  lemma {:induction false} KeptToTheEnd(lines: seq<string>, kept: seq<string>, j: nat)
    requires lines != [] && Trim(lines[0]) == "---" && kept == KeptLines(lines) && j <= |kept| && !Exposed(lines)
    ensures forall r :: 0 <= r < j ==> FateAt(kept, r) == Kept
    decreases j
  {
    hide Step, Beside, ExposedAt;
    if j > 0 {
      KeptToTheEnd(lines, kept, j - 1);
      var i := WhereFrom(lines, j - 1);
      BesideAt(lines, i, kept);
      KeptAgain(lines, i, kept);
    }
  }

  /** Running again over the kept lines keeps them all, exactly when none is exposed. */
  lemma SecondRunKeepsAll(lines: seq<string>)
    requires lines != [] && Trim(lines[0]) == "---"
    ensures AllKept(KeptLines(lines)) <==> !Exposed(lines)
  {
    var kept := KeptLines(lines);
    hide Step, Beside, ExposedAt;
    if Exposed(lines) {
      var o, q :| ExposedAt(lines, o, q);
      if AllKept(kept) {
        OInside(lines, o, q);
        BesideAt(lines, o, kept);
        ExposedDrops(lines, o, q, kept);
      }
    } else {
      KeptToTheEnd(lines, kept, |kept|);
    }
  }

  lemma OInside(lines: seq<string>, o: nat, q: nat)
    requires ExposedAt(lines, o, q)
    ensures o < |lines|
  {
  }

  // ---------- Trimming the kept lines ----------

  /** The text of the kept lines once it is trimmed: its outer lines trimmed, blank ends gone. */
  function TrimmedLines(k: seq<string>, p: nat): seq<string>
    requires 0 < p <= |k|
  {
    (if p == 1 then [Trim(k[0])] else [TrimLeft(k[0])] + k[1..p - 1] + [TrimRight(k[p - 1])]) + [""]
  }

  /** `p` lines up to the last that is not blank. */
  ghost predicate InkEnds(k: seq<string>, p: nat) {
    0 < p <= |k| && !Blank(k[p - 1]) && forall j :: p <= j < |k| ==> Blank(k[j])
  }

  lemma {:induction false} InkEndExists(k: seq<string>) returns (p: nat)
    requires k != [] && !Blank(k[0])
    ensures InkEnds(k, p)
  {
    p := |k|;
    while Blank(k[p - 1])
      invariant 0 < p <= |k| && forall j :: p <= j < |k| ==> Blank(k[j])
      decreases p
    {
      p := p - 1;
    }
  }

  lemma {:induction false} BlankJoin(lines: seq<string>)
    requires forall j :: 0 <= j < |lines| ==> Blank(lines[j])
    ensures Blank(Join(lines))
  {
    if |lines| > 1 { BlankJoin(lines[1..]); }
  }

  lemma TrimJoin(k: seq<string>, p: nat)
    requires InkEnds(k, p) && !Blank(k[0])
    ensures Trim(Join(k)) + "\n" == Join(TrimmedLines(k, p))
  {
    hide Join, Blank, TrimLeft, TrimRight;
    var text := Join(k[..p]);
    TrimTail(k, p);
    if p == 1 {
      JoinOne(k[0]);
      JoinOne(Trim(k[0]));
      JoinOne("");
      assert k[..1] == [k[0]];
      JoinMore([Trim(k[0])], [""]);
    } else {
      var middle, last := [TrimLeft(k[0])] + k[1..p - 1], k[p - 1];
      JoinOne(k[0]);
      JoinOne(TrimLeft(k[0]));
      JoinOne(last);
      JoinOne(TrimRight(last));
      JoinOne("");
      assert k[..p] == [k[0]] + k[1..p];
      JoinMore([k[0]], k[1..p]);
      TrimLeftBefore(k[0], "\n" + Join(k[1..p]));
      assert k[0] + "\n" + Join(k[1..p]) == k[0] + ("\n" + Join(k[1..p]));
      JoinMore([TrimLeft(k[0])], k[1..p]);
      assert [TrimLeft(k[0])] + k[1..p] == middle + [last];
      JoinMore(middle, [last]);
      assert TrimLeft(text) == Join(middle) + "\n" + last;
      TrimRightAfter(Join(middle) + "\n", last);
      JoinMore(middle, [TrimRight(last)]);
      JoinMore(middle + [TrimRight(last)], [""]);
    }
  }

  lemma JoinOne(line: string)
    ensures Join([line]) == line
  {
  }

  lemma TrimTail(k: seq<string>, p: nat)
    requires InkEnds(k, p) && !Blank(k[0])
    ensures Trim(Join(k)) == Trim(Join(k[..p]))
  {
    if p < |k| {
      assert k == k[..p] + k[p..];
      JoinMore(k[..p], k[p..]);
      BlankJoin(k[p..]);
      var text, tail := Join(k[..p]), "\n" + Join(k[p..]);
      assert Join(k) == text + tail;
      NotBlankJoin(k[..p]);
      TrimLeftBefore(text, tail);
      TrimRightBlank(TrimLeft(text), tail);
    } else {
      assert k[..p] == k;
    }
  }

  lemma NotBlankJoin(lines: seq<string>)
    requires lines != [] && !Blank(lines[0])
    ensures !Blank(Join(lines))
  {
    var i :| 0 <= i < |lines[0]| && !IsSpace(lines[0][i]);
    assert Join(lines)[i] == lines[0][i];
  }

  lemma BlankParts(s: string, k: nat)
    requires k <= |s|
    ensures Blank(s) <==> Blank(s[..k]) && Blank(s[k..])
  {
    assert s == s[..k] + s[k..];
  }

  lemma {:induction false} TrimSame(s: string)
    ensures Trim(TrimRight(s)) == Trim(s) && Trim(TrimLeft(s)) == Trim(s) && Trim(Trim(s)) == Trim(s)
  {
    TrimTwice(s);
    TrimLeftIs(s);
    TrimRightIs(s);
    if Blank(s) {
    } else {
      var k :| 0 <= k <= |s| && TrimRight(s) == s[..k] && Blank(s[k..]);
      assert s == s[..k] + s[k..];
      BlankParts(s, k);
      TrimLeftBefore(s[..k], s[k..]);
      TrimRightBlank(TrimLeft(s[..k]), s[k..]);
    }
  }

  // ---------- Trimming does not change what is kept ----------

  lemma StepLooksAtTrimmed(m: Mode, i: nat, line: string, next: Option<string>, other: Option<string>)
    requires next.Some? == other.Some? && (next.Some? ==> Trim(next.value) == Trim(other.value))
    ensures Step(m, i, line, next) == Step(m, i, line, other)
  {
    hide EvidenceTitle, NextFence, AtxHeading;
  }

  lemma {:induction false} RunOfPrefix(s: string, k: nat, c: char)
    requires k <= |s| && !IsSpace(c) && Blank(s[k..])
    ensures RunLength(s[..k], c) == RunLength(s, c) <= k
  {
    if k == 0 {
      assert s[0..] == s;
      if s != [] { assert IsSpace(s[0]); }
    } else if s[0] == c {
      assert s[1..][k - 1..] == s[k..] && s[1..][..k - 1] == s[..k][1..];
      RunOfPrefix(s[1..], k - 1, c);
    }
  }

  lemma {:induction false} DropOfPrefix(s: string, k: nat)
    requires k <= |s| && Blank(s[k..]) && !Blank(s)
    ensures RunLength(s[..k], ' ') == RunLength(s, ' ') < k
    decreases |s|
  {
    BlankParts(s, k);
    assert s[..0] == [] && Blank(s[..0]);
    if s[0] == ' ' {
      assert s[1..][k - 1..] == s[k..] && s[1..][..k - 1] == s[..k][1..];
      assert s == [s[0]] + s[1..];
      DropOfPrefix(s[1..], k - 1);
    }
  }

  predicate TitleStarts(h: Heading) { h.level > 0 && EvidenceTitle(h.title) }

  lemma EmptyTitle(h: string)
    requires RunLength(h, '#') < |h| && Trim(h[RunLength(h, '#')..]) == ""
    ensures !TitleStarts(AtxOf(h))
  {
    assert Trim(DropHashes("")) == "";
  }

  /** Blanks at the end do not change whether a hashed line starts a section. */
  lemma AtxSection(h: string, k: nat)
    requires 0 < k <= |h| && Blank(h[k..]) && h[0] == '#'
    ensures TitleStarts(AtxOf(h)) <==> TitleStarts(AtxOf(h[..k]))
  {
    RunOfPrefix(h, k, '#');
    var level := RunLength(h, '#');
    if level < k {
      var rest := h[level..];
      assert rest[..k - level] == h[..k][level..] && rest[k - level..] == h[k..];
      assert rest == rest[..k - level] + rest[k - level..];
      TrimOfPrefix(rest[..k - level], rest[k - level..]);
      hide EvidenceTitle, RunLength;
    } else if level < |h| {
      TrimLeftIs(h[level..]);
      EmptyTitle(h);
    }
  }

  lemma HashedTrimmed(line: string, k: nat)
    requires k <= |line| && Blank(line[k..]) && !Blank(line)
    ensures var n := RunLength(line, ' ');
            n < k && DropSpaces(line) == line[n..] && DropSpaces(line[..k]) == line[n..][..k - n] && Blank(line[n..][k - n..])
    ensures Hashed(line) <==> Hashed(line[..k])
    ensures Hashed(line) ==> DropSpaces(line)[0] == '#'
  {
    DropOfPrefix(line, k);
    HashedIs(line);
    HashedIs(line[..k]);
    hide RunLength, Blank, Hashed, DropSpaces;
    CutBoth(line, RunLength(line, ' '), k);
  }

  lemma HashedIs(line: string)
    ensures var n := RunLength(line, ' ');
            DropSpaces(line) == line[n..] && (Hashed(line) <==> n <= 3 && n < |line| && line[n] == '#')
  {
    if DropSpaces(line) != [] { FirstHash(DropSpaces(line)); }
  }

  lemma CutBoth(line: string, n: nat, k: nat)
    requires n < k <= |line|
    ensures line[..k][n] == line[n]
    ensures line[..k][n..] == line[n..][..k - n] && line[n..][k - n..] == line[k..] && line[n..][0] == line[..k][n..][0]
  {
  }

  lemma FirstHash(s: string)
    requires s != []
    ensures HasPrefix(s, "#") <==> s[0] == '#'
  {
    assert s[..1] == [s[0]];
  }

  lemma NotSetext(line: string, next: Option<string>)
    requires next.Some? ==> !Ruler(next.value)
    ensures StartsSection(line, next) <==> Hashed(line) && TitleStarts(AtxOf(DropSpaces(line)))
  {
    hide AtxOf, EvidenceTitle;
  }

  /** Blanks at the end of a line do not change whether it is a heading that starts a section. */
  lemma HeadingTrimmed(line: string, none: Option<string>, other: Option<string>)
    requires !Blank(line) && (none.Some? ==> !Ruler(none.value)) && (other.Some? ==> !Ruler(other.value))
    ensures StartsSection(line, none) <==> StartsSection(TrimRight(line), other)
  {
    hide StartsSection, Ruler, Hashed, TitleStarts, AtxOf, RunLength, TrimRight;
    var k := TrimRightCut(line);
    NotSetext(line, none);
    NotSetext(line[..k], other);
    HashedSection(line, k);
  }

  lemma TrimRightCut(line: string) returns (k: nat)
    ensures k <= |line| && TrimRight(line) == line[..k] && Blank(line[k..])
  {
    TrimRightIs(line);
    k :| 0 <= k <= |line| && TrimRight(line) == line[..k] && Blank(line[k..]);
  }

  lemma HashedSection(line: string, k: nat)
    requires k <= |line| && Blank(line[k..]) && !Blank(line)
    ensures Hashed(line) && TitleStarts(AtxOf(DropSpaces(line))) <==> Hashed(line[..k]) && TitleStarts(AtxOf(DropSpaces(line[..k])))
  {
    hide Hashed, TitleStarts, AtxOf, RunLength;
    HashedTrimmed(line, k);
    if Hashed(line) { AtxSection(DropSpaces(line), k - RunLength(line, ' ')); }
  }

  lemma TrimOfPrefix(s: string, blank: string)
    requires Blank(blank)
    ensures Trim(s + blank) == Trim(s)
  {
    TrimLeftIs(s);
    TrimLeftIs(s + blank);
    if Blank(s) {
      assert Blank(s + blank);
    } else {
      TrimLeftBefore(s, blank);
      TrimRightBlank(TrimLeft(s), blank);
    }
  }

  lemma PrefixTrimmed(line: string, prefix: string, k: nat)
    requires k <= |line| && Blank(line[k..]) && prefix != [] && !IsSpace(prefix[|prefix| - 1])
    ensures HasPrefix(line, prefix) <==> HasPrefix(line[..k], prefix)
  {
    var n := |prefix|;
    if k < n <= |line| {
      assert line[k..][n - 1 - k] == line[n - 1] == line[..n][n - 1];
    } else if n <= k {
      assert line[..k][..n] == line[..n];
    }
  }

  /** The last line, with its blanks or without. */
  lemma LastLineSame(m: Mode, i: nat, line: string, next: Option<string>, other: Option<string>)
    requires i > 0 && m.skip == 0 && !m.evidence && !Blank(line)
    requires (next.Some? ==> !Ruler(next.value)) && (other.Some? ==> !Ruler(other.value))
    ensures Step(m, i, line, next).fate == Kept <==> Step(m, i, TrimRight(line), other).fate == Kept
  {
    TrimSame(line);
    HeadingTrimmed(line, next, other);
    if m.front {
      hide EvidenceTitle, HeadingOf, NextFence, BodyStep;
      var k := TrimRightCut(line);
      PrefixTrimmed(line, "evidence:", k);
    } else {
      BodyKept(m, i, line, next);
      BodyKept(m, i, TrimRight(line), other);
      hide EvidenceTitle, HeadingOf, NextFence, StartsSection, Step;
    }
  }

  lemma BodyKept(m: Mode, i: nat, line: string, next: Option<string>)
    requires i > 0 && m.skip == 0 && !m.front
    ensures Step(m, i, line, next).fate == Kept <==>
              IsFence(Trim(line)) || m.underline || m.fence != "" || !StartsSection(line, next)
  {
    hide EvidenceTitle, HeadingOf, NextFence;
  }

  lemma KeptMode(m: Mode, i: nat, line: string, next: Option<string>)
    requires m.skip == 0 && !m.evidence && Step(m, i, line, next).fate == Kept
    ensures Step(m, i, line, next).mode.skip == 0 && !Step(m, i, line, next).mode.evidence
  {
    hide HeadingOf, NextFence, EvidenceTitle;
  }

  lemma {:induction false} KeptModes(lines: seq<string>, i: nat)
    requires i <= |lines| && forall j :: 0 <= j < i ==> FateAt(lines, j) == Kept
    ensures ModeAt(lines, i).skip == 0 && !ModeAt(lines, i).evidence
    decreases i
  {
    hide Step;
    if i > 0 {
      KeptModes(lines, i - 1);
      assert FateAt(lines, i - 1) == Kept;
      KeptMode(ModeAt(lines, i - 1), i - 1, lines[i - 1], NextLine(lines, i - 1));
    }
  }

  lemma BlankKept(m: Mode, i: nat, line: string, next: Option<string>)
    requires i > 0 && m.skip == 0 && !m.evidence && Blank(line)
    ensures Step(m, i, line, next).fate == Kept
  {
    TrimLeftIs(line);
    if !m.front {
      BodyKept(m, i, line, next);
      SpacesDropped(line);
      SetextBelow(line, next);
      assert !Hashed(line) by { if DropSpaces(line) != "" { assert line[RunLength(line, ' ')] == DropSpaces(line)[0]; } }
      hide EvidenceTitle;
    }
  }

  lemma {:induction false} BlankTailKept(lines: seq<string>, p: nat, i: nat)
    requires 0 < p <= i <= |lines| && forall j :: 0 <= j < p ==> FateAt(lines, j) == Kept
    requires forall j :: p <= j < |lines| ==> Blank(lines[j])
    ensures forall j :: 0 <= j < i ==> FateAt(lines, j) == Kept
    decreases i
  {
    hide Step;
    if p < i {
      BlankTailKept(lines, p, i - 1);
      KeptModes(lines, i - 1);
      BlankKept(ModeAt(lines, i - 1), i - 1, lines[i - 1], NextLine(lines, i - 1));
    }
  }

  lemma TrimmedAt(k: seq<string>, p: nat)
    requires InkEnds(k, p)
    ensures var t := TrimmedLines(k, p);
            |t| == p + 1 && t[p] == "" && Trim(t[0]) == Trim(k[0]) && (forall j :: 0 < j < p - 1 ==> t[j] == k[j])
            && (p > 1 ==> t[p - 1] == TrimRight(k[p - 1])) && forall j :: 0 <= j < p ==> Trim(t[j]) == Trim(k[j])
  {
    TrimSame(k[0]);
    TrimSame(k[p - 1]);
  }

  /** A step of the two runs before the last line with ink. */
  lemma TrimmedStep(k: seq<string>, p: nat, j: nat)
    requires InkEnds(k, p) && Trim(k[0]) == "---" && 0 < j && j + 1 < p
    ensures var t := TrimmedLines(k, p);
            |t| == p + 1 && t[j] == k[j] && forall m :: Step(m, j, t[j], NextLine(t, j)) == Step(m, j, k[j], NextLine(k, j))
  {
    TrimmedAt(k, p);
    var t := TrimmedLines(k, p);
    hide Step, TrimmedLines, Trim;
    forall m ensures Step(m, j, t[j], NextLine(t, j)) == Step(m, j, k[j], NextLine(k, j)) {
      StepLooksAtTrimmed(m, j, k[j], NextLine(k, j), NextLine(t, j));
    }
  }

  lemma FirstStep(line: string, next: Option<string>)
    requires Trim(line) == "---"
    ensures Step(START, 0, line, next) == Outcome(START.(front := true), Kept, None)
  {
  }

  lemma {:induction false} TrimmedModes(k: seq<string>, p: nat, j: nat)
    requires InkEnds(k, p) && Trim(k[0]) == "---" && j < p
    ensures j < |TrimmedLines(k, p)| && ModeAt(TrimmedLines(k, p), j) == ModeAt(k, j)
    ensures forall i :: 0 <= i < j ==> FateAt(TrimmedLines(k, p), i) == FateAt(k, i)
    decreases j
  {
    hide ModeAt, FateAt, OutcomeAt, Step, TrimmedLines, Trim, Blank, NextLine;
    TrimmedAt(k, p);
    var t := TrimmedLines(k, p);
    ModeStart(k);
    ModeStart(t);
    if j > 0 {
      TrimmedModes(k, p, j - 1);
      ModeNext(k, j - 1);
      ModeNext(t, j - 1);
      if j > 1 {
        TrimmedStep(k, p, j - 1);
      } else {
        FirstStep(k[0], NextLine(k, 0));
        FirstStep(t[0], NextLine(t, 0));
      }
    }
  }

  lemma ModeStart(lines: seq<string>)
    ensures ModeAt(lines, 0) == START
  {
  }

  lemma ModeNext(lines: seq<string>, i: nat)
    requires i < |lines|
    ensures ModeAt(lines, i + 1) == Step(ModeAt(lines, i), i, lines[i], NextLine(lines, i)).mode
    ensures FateAt(lines, i) == Step(ModeAt(lines, i), i, lines[i], NextLine(lines, i)).fate
  {
    hide Step, NextLine;
  }

  lemma BlankIsNoRuler(line: string)
    requires Blank(line)
    ensures !Ruler(line)
  {
    TrimLeftIs(line);
  }

  /** The lines up to the last with ink are kept in both, or in neither. */
  lemma TrimmedLast(k: seq<string>, p: nat)
    requires InkEnds(k, p) && Trim(k[0]) == "---" && p > 1 && forall j :: 0 <= j < p - 1 ==> FateAt(k, j) == Kept
    ensures |TrimmedLines(k, p)| == p + 1
    ensures FateAt(TrimmedLines(k, p), p - 1) == Kept <==> FateAt(k, p - 1) == Kept
  {
    var t := TrimmedLines(k, p);
    TrimmedAt(k, p);
    TrimmedModes(k, p, p - 1);
    BlankIsNoRuler("");
    if p < |k| { BlankIsNoRuler(k[p]); }
    hide Step, TrimmedLines;
    KeptModes(k, p - 1);
    LastLineSame(ModeAt(k, p - 1), p - 1, k[p - 1], NextLine(k, p - 1), NextLine(t, p - 1));
  }

  ghost predicate KeptUpTo(lines: seq<string>, p: nat) {
    p <= |lines| && forall j :: 0 <= j < p ==> FateAt(lines, j) == Kept
  }

  lemma FirstKept(lines: seq<string>)
    requires lines != [] && Trim(lines[0]) == "---"
    ensures KeptUpTo(lines, 1)
  {
  }

  lemma TrimmedUpTo(k: seq<string>, p: nat)
    requires InkEnds(k, p) && Trim(k[0]) == "---"
    ensures KeptUpTo(TrimmedLines(k, p), p) <==> KeptUpTo(k, p)
  {
    var t := TrimmedLines(k, p);
    TrimmedAt(k, p);
    TrimmedModes(k, p, p - 1);
    if p == 1 {
      FirstKept(k);
      FirstKept(t);
    } else if KeptUpTo(k, p - 1) {
      TrimmedLast(k, p);
    }
    hide FateAt, TrimmedLines;
  }

  lemma AllFromUpTo(lines: seq<string>, p: nat)
    requires 0 < p <= |lines| && forall j :: p <= j < |lines| ==> Blank(lines[j])
    ensures AllKept(lines) <==> KeptUpTo(lines, p)
  {
    hide FateAt;
    if KeptUpTo(lines, p) { BlankTailKept(lines, p, |lines|); }
  }

  lemma TrimmedSame(k: seq<string>, p: nat)
    requires InkEnds(k, p) && Trim(k[0]) == "---"
    ensures AllKept(TrimmedLines(k, p)) <==> AllKept(k)
  {
    TrimmedAt(k, p);
    TrimmedUpTo(k, p);
    AllFromUpTo(k, p);
    hide KeptUpTo;
    AllFromUpTo(TrimmedLines(k, p), p);
  }

  // ---------- Projecting a text twice ----------

  ghost predicate HasReturn(text: string) { exists i :: 0 <= i < |text| - 1 && text[i] == '\r' && text[i + 1] == '\n' }

  lemma {:induction false} WithoutReturnsIs(s: string)
    ensures !HasReturn(s) ==> WithoutReturns(s) == s
    ensures Tally(WithoutReturns(s), c => c == '\r') <= Tally(s, c => c == '\r')
    ensures HasReturn(s) ==> Tally(WithoutReturns(s), c => c == '\r') < Tally(s, c => c == '\r')
  {
    var kind := c => c == '\r';
    if |s| >= 2 && s[0] == '\r' && s[1] == '\n' {
      WithoutReturnsIs(s[2..]);
      assert Tally(s, kind) == 1 + Tally(s[1..], kind) && s[1..][1..] == s[2..];
      TallyAdds("\n", WithoutReturns(s[2..]), kind);
      assert Tally("\n", kind) == 0;
    } else if s != [] {
      WithoutReturnsIs(s[1..]);
      assert s == [s[0]] + s[1..];
      TailReturn(s);
    }
  }

  lemma TailReturn(s: string)
    requires s != [] && !(|s| >= 2 && s[0] == '\r' && s[1] == '\n')
    ensures HasReturn(s) <==> HasReturn(s[1..])
  {
    if HasReturn(s) {
      var i :| 0 <= i < |s| - 1 && s[i] == '\r' && s[i + 1] == '\n';
      assert s[1..][i - 1] == '\r' && s[1..][i] == '\n';
    }
    if HasReturn(s[1..]) {
      var i :| 0 <= i < |s[1..]| - 1 && s[1..][i] == '\r' && s[1..][i + 1] == '\n';
      assert s[i + 1] == '\r' && s[i + 2] == '\n';
    }
  }

  lemma {:induction false} KeptTally(lines: seq<string>, n: nat, kind: char -> bool)
    requires n <= |lines|
    ensures TallyOf(Those(lines, Kept, n), kind) <= TallyOf(lines[..n], kind)
    ensures (exists j :: 0 <= j < n && FateAt(lines, j) != Kept && Tally(lines[j], kind) > 0) ==>
              TallyOf(Those(lines, Kept, n), kind) < TallyOf(lines[..n], kind)
  {
    hide Step;
    if n > 0 {
      KeptTally(lines, n - 1, kind);
      assert lines[..n] == lines[..n - 1] + [lines[n - 1]];
      TallyOfAdds(lines[..n - 1], [lines[n - 1]], kind);
      TallyOfAdds(Those(lines, Kept, n - 1), [lines[n - 1]], kind);
      assert [lines[n - 1]][1..] == [];
      assert TallyOf([lines[n - 1]], kind) == Tally(lines[n - 1], kind);
    }
  }

  /** A projection never holds more of any kind of character than its text does. */
  lemma MarkdownTally(text: string, kind: char -> bool)
    requires !kind('\n')
    ensures Tally(Markdown(Split(text)), kind) <= Tally(text, kind)
    ensures (exists j :: 0 <= j < |Split(text)| && FateAt(Split(text), j) != Kept && Tally(Split(text)[j], kind) > 0) ==>
              Tally(Markdown(Split(text)), kind) < Tally(text, kind)
  {
    var lines := Split(text);
    hide FateAt;
    SplitIsLines(text);
    TallyJoin(lines, kind);
    KeptTally(lines, |lines|, kind);
    assert lines[..|lines|] == lines;
    TallyJoin(KeptLines(lines), kind);
    TallyTrim(Join(KeptLines(lines)), kind);
    TallyAdds(Trim(Join(KeptLines(lines))), "\n", kind);
    assert Tally("\n", kind) == 0;
  }

  predicate Inked(c: char) { !IsSpace(c) }

  lemma {:induction false} InkOfBlank(s: string)
    ensures Tally(s, Inked) == 0 <==> Blank(s)
  {
    if s != [] {
      InkOfBlank(s[1..]);
      assert s == [s[0]] + s[1..];
    }
  }

  /** The first line a run over a tidy text drops has ink. */
  lemma FirstDropped(lines: seq<string>) returns (j: nat)
    requires lines != [] && Trim(lines[0]) == "---" && !AllKept(lines)
    ensures j < |lines| && FateAt(lines, j) != Kept && !Blank(lines[j])
  {
    hide Step;
    FirstKept(lines);
    j := 1;
    while j < |lines| && FateAt(lines, j) == Kept
      invariant 1 <= j <= |lines| && KeptUpTo(lines, j)
      decreases |lines| - j
    {
      j := j + 1;
    }
    KeptModes(lines, j);
    if Blank(lines[j]) { BlankKept(ModeAt(lines, j), j, lines[j], NextLine(lines, j)); }
  }

  lemma {:induction false} AllThose(lines: seq<string>, n: nat)
    requires n <= |lines| && forall j :: 0 <= j < n ==> FateAt(lines, j) == Kept
    ensures Those(lines, Kept, n) == lines[..n]
  {
    hide Step;
    if n > 0 {
      AllThose(lines, n - 1);
      assert lines[..n] == lines[..n - 1] + [lines[n - 1]];
    }
  }

  /** A tidy text is its own projection exactly when all its lines are kept. */
  lemma TidyText(t: seq<string>, text: string)
    requires t == Split(text) && Trim(t[0]) == "---" && Trim(text) + "\n" == text
    ensures Markdown(t) == text <==> AllKept(t)
  {
    hide FateAt, Split;
    SplitIsLines(text);
    if AllKept(t) {
      AllThose(t, |t|);
      assert t[..|t|] == t;
    } else {
      var j := FirstDropped(t);
      InkOfBlank(t[j]);
      MarkdownTally(text, Inked);
    }
  }

  lemma {:induction false} ThoseAreLines(lines: seq<string>, n: nat)
    requires n <= |lines| && AreLines(lines)
    ensures AreLines(Those(lines, Kept, n))
  {
    hide Step;
    if n > 0 { ThoseAreLines(lines, n - 1); }
  }

  lemma TrimmedAreLines(k: seq<string>, p: nat)
    requires 0 < p <= |k| && AreLines(k)
    ensures AreLines(TrimmedLines(k, p))
  {
    TrimOneLine(k[0]);
    TrimOneLine(k[p - 1]);
  }

  lemma {:induction false} TrimOneLine(s: string)
    requires OneLine(s)
    ensures OneLine(TrimLeft(s)) && OneLine(TrimRight(s)) && OneLine(Trim(s))
  {
    TrimLeftIs(s);
    TrimRightIs(s);
    TrimRightIs(TrimLeft(s));
  }

  /** What a projection looks like as lines, when its text starts with frontmatter. */
  lemma ProjectionLines(lines: seq<string>) returns (k: seq<string>, p: nat)
    requires lines != [] && AreLines(lines) && Trim(lines[0]) == "---"
    ensures k == KeptLines(lines) && k != [] && Trim(k[0]) == "---" && InkEnds(k, p)
    ensures Split(Markdown(lines)) == TrimmedLines(k, p) && Trim(Markdown(lines)) + "\n" == Markdown(lines)
  {
    hide Step;
    k := KeptLines(lines);
    FirstKept(lines);
    CountAtMost(lines, 0);
    assert k[0] == lines[0];
    TrimLeftIs(k[0]);
    p := InkEndExists(k);
    TrimJoin(k, p);
    ThoseAreLines(lines, |lines|);
    TrimmedAreLines(k, p);
    SplitJoin(TrimmedLines(k, p));
    TrimTwice(Join(k));
  }

  lemma NormalOf(text: string)
    requires text != [] && text[0] != MARK
    ensures !HasReturn(text) ==> Normal(text) == text
    ensures HasReturn(text) ==> Tally(Normal(text), c => c == '\r') < Tally(text, c => c == '\r')
  {
    WithoutReturnsIs(text);
  }

  lemma MarkdownStarts(lines: seq<string>)
    requires lines != [] && AreLines(lines) && Trim(lines[0]) == "---"
    ensures Markdown(lines) != [] && Markdown(lines)[0] != MARK
  {
    var k, p := ProjectionLines(lines);
    SplitIsLines(Markdown(lines));
    var t := Split(Markdown(lines));
    TrimmedAt(k, p);
    assert Trim(t[0]) == "---";
    TrimLeftIs(t[0]);
    assert Trim("") == "";
    hide Markdown, TrimmedLines;
    assert Join(t)[0] == t[0][0];
    if t[0][0] == MARK {
      assert !IsSpace(t[0][0]);
      TrimRightIs(t[0]);
    }
  }

  /** A projection is its own projection exactly when no stray return is left before a line end
      and no kept line reads like an evidence title right before a removed section and a ruler. */
  lemma ProjectingTwice(raw: string)
    requires Trim(Split(Normal(raw))[0]) == "---"
    ensures var once := Projected(raw).markdown;
            Projected(once).markdown == once <==> !HasReturn(once) && !Exposed(Split(Normal(raw)))
  {
    var lines := Split(Normal(raw));
    SplitIsLines(Normal(raw));
    var once := Markdown(lines);
    var k, p := ProjectionLines(lines);
    MarkdownStarts(lines);
    NormalOf(once);
    hide Normal, FateAt, Exposed, AllKept, HasReturn, TrimmedLines;
    if HasReturn(once) {
      MarkdownTally(Normal(once), c => c == '\r');
    } else {
      TrimmedAt(k, p);
      TidyText(Split(once), once);
      TrimmedSame(k, p);
      SecondRunKeepsAll(lines);
    }
  }

  // ---------- What a caller can check first ----------

  /** A return before a two-character line end. */
  ghost predicate DoubleReturn(text: string) {
    exists i :: 0 <= i < |text| - 2 && text[i] == '\r' && text[i + 1] == '\r' && text[i + 2] == '\n'
  }

  lemma {:induction false} NoDoubleNoReturn(s: string)
    ensures HasReturn(WithoutReturns(s)) ==> DoubleReturn(s)
    ensures |s| >= 1 && WithoutReturns(s) != [] && WithoutReturns(s)[0] == '\n' ==>
              s[0] == '\n' || (|s| >= 2 && s[0] == '\r' && s[1] == '\n')
  {
    var w := WithoutReturns(s);
    if |s| >= 2 && s[0] == '\r' && s[1] == '\n' {
      NoDoubleNoReturn(s[2..]);
      ReturnAfter("\n", WithoutReturns(s[2..]));
      DoubleAfter(s[..2], s[2..]);
      assert s == s[..2] + s[2..];
    } else if s != [] {
      NoDoubleNoReturn(s[1..]);
      assert s == [s[0]] + s[1..];
      DoubleAfter([s[0]], s[1..]);
      if HasReturn(w) && !HasReturn(WithoutReturns(s[1..])) {
        ReturnAfter([s[0]], WithoutReturns(s[1..]));
        assert s[1] == '\r' && s[2] == '\n';
        assert DoubleReturn(s);
      }
    }
  }

  lemma ReturnAfter(a: string, b: string)
    requires |a| == 1
    ensures HasReturn(a + b) ==> HasReturn(b) || (a[0] == '\r' && b != [] && b[0] == '\n')
  {
    if HasReturn(a + b) {
      var i :| 0 <= i < |a + b| - 1 && (a + b)[i] == '\r' && (a + b)[i + 1] == '\n';
      if i > 0 { assert b[i - 1] == '\r' && b[i] == '\n'; }
    }
  }

  lemma DoubleAfter(a: string, b: string)
    ensures DoubleReturn(b) ==> DoubleReturn(a + b)
  {
    if DoubleReturn(b) {
      var i :| 0 <= i < |b| - 2 && b[i] == '\r' && b[i + 1] == '\r' && b[i + 2] == '\n';
      var j := |a| + i;
      assert (a + b)[j] == '\r' && (a + b)[j + 1] == '\r' && (a + b)[j + 2] == '\n';
    }
  }

  predicate EndsInReturn(line: string) { line != [] && line[|line| - 1] == '\r' }

  /** Among lines, a return before a newline ends a line that is not the last. */
  lemma {:induction false} JoinReturn(lines: seq<string>)
    requires AreLines(lines)
    ensures HasReturn(Join(lines)) <==> exists j :: 0 <= j < |lines| - 1 && EndsInReturn(lines[j])
  {
    if |lines| > 1 {
      JoinReturn(lines[1..]);
      var rest := Join(lines[1..]);
      LineReturn(lines[0], rest);
      if EndsInReturn(lines[0]) {
        assert HasReturn(Join(lines));
      } else if HasReturn(rest) {
        var j :| 0 <= j < |lines[1..]| - 1 && EndsInReturn(lines[1..][j]);
        assert EndsInReturn(lines[j + 1]);
      } else {
        forall j | 0 <= j < |lines| - 1 ensures !EndsInReturn(lines[j]) {
          if j > 0 { assert !EndsInReturn(lines[1..][j - 1]); }
        }
      }
    } else if |lines| == 1 {
      assert OneLine(lines[0]);
    }
  }

  lemma LineReturn(line: string, rest: string)
    requires OneLine(line)
    ensures HasReturn(line + "\n" + rest) <==> EndsInReturn(line) || HasReturn(rest)
  {
    var text := line + "\n" + rest;
    assert forall m :: 0 <= m < |line| ==> text[m] == line[m] && line[m] != '\n';
    if EndsInReturn(line) { assert text[|line| - 1] == '\r' && text[|line|] == '\n'; }
    if HasReturn(rest) {
      var i :| 0 <= i < |rest| - 1 && rest[i] == '\r' && rest[i + 1] == '\n';
      var j := |line| + 1 + i;
      assert text[j] == '\r' && text[j + 1] == '\n';
    }
    if HasReturn(text) {
      var i :| 0 <= i < |text| - 1 && text[i] == '\r' && text[i + 1] == '\n';
      if i >= |line| {
        assert rest[i - |line| - 1] == '\r' && rest[i - |line|] == '\n';
      }
    }
  }

  lemma TrimKeepsEnd(line: string)
    ensures !EndsInReturn(TrimRight(line))
    ensures !Blank(line) && EndsInReturn(TrimLeft(line)) ==> EndsInReturn(line)
  {
    TrimRightIs(line);
    LeadIs(line);
    TrimLeftIs(line);
  }

  lemma TrimmedReturns(k: seq<string>, p: nat, j: nat)
    requires InkEnds(k, p) && !Blank(k[0]) && j < p && EndsInReturn(TrimmedLines(k, p)[j])
    ensures j + 1 < p && EndsInReturn(k[j])
  {
    TrimmedAt(k, p);
    TrimKeepsEnd(k[p - 1]);
    TrimKeepsEnd(k[0]);
    TrimKeepsEnd(TrimLeft(k[0]));
    hide EndsInReturn, Blank, TrimLeft, TrimRight;
  }

  /** Without a doubled return in the text, none is left in its projection. */
  lemma NoReturnLeft(raw: string)
    requires Trim(Split(Normal(raw))[0]) == "---" && !DoubleReturn(raw)
    ensures !HasReturn(Projected(raw).markdown)
  {
    var lines := Split(Normal(raw));
    SplitIsLines(Normal(raw));
    var bare := if raw != [] && raw[0] == MARK then raw[1..] else raw;
    if bare != raw { DoubleAfter([MARK], bare); }
    NoDoubleNoReturn(bare);
    JoinReturn(lines);
    var k, p := ProjectionLines(lines);
    var t := TrimmedLines(k, p);
    SplitIsLines(Markdown(lines));
    JoinReturn(t);
    TrimLeftIs(k[0]);
    forall j | 0 <= j < |t| - 1 ensures !EndsInReturn(t[j]) {
      if EndsInReturn(t[j]) {
        TrimmedReturns(k, p, j);
        var i := WhereFrom(lines, j);
      }
    }
  }

  /** For texts with ordinary line ends: projecting again changes nothing exactly when nothing is exposed. */
  lemma ProjectingTwiceOrdinarily(raw: string)
    requires Trim(Split(Normal(raw))[0]) == "---" && !DoubleReturn(raw)
    ensures Projected(Projected(raw).markdown).markdown == Projected(raw).markdown <==> !Exposed(Split(Normal(raw)))
  {
    NoReturnLeft(raw);
    ProjectingTwice(raw);
  }

  /** In particular if no setext title is itself a row of '-' or '='. */
  lemma NoRulerTitles(raw: string)
    requires Trim(Split(Normal(raw))[0]) == "---" && !DoubleReturn(raw)
    requires var lines := Split(Normal(raw)); forall i :: 0 < i < |lines| - 1 ==> !(Ruler(lines[i]) && Ruler(lines[i + 1]))
    ensures Projected(Projected(raw).markdown).markdown == Projected(raw).markdown
  {
    var lines := Split(Normal(raw));
    ProjectingTwiceOrdinarily(raw);
    hide Step, Ruler;
    if Exposed(lines) {
      var o, q :| ExposedAt(lines, o, q);
      RulerEndsSection(lines, q);
    }
  }

  /** A kept ruler right after a removed section is the title of a setext heading. */
  lemma RulerEndsSection(lines: seq<string>, q: nat)
    requires 1 < q < |lines| && FateAt(lines, q - 1) == Removed && FateAt(lines, q) == Kept && Ruler(lines[q])
    ensures q + 1 < |lines| && Ruler(lines[q + 1])
  {
    RulerIsPlain(lines[q]);
    EndsWithHeading(lines, q);
    SetextBelow(lines[q], NextLine(lines, q));
    hide Step, Ruler;
  }

  lemma SkipAfterRemoved(m: Mode, i: nat, line: string, next: Option<string>)
    requires Step(m, i, line, next).fate == Removed
    ensures Step(m, i, line, next).mode.skip > 0 && !Step(m, i, line, next).mode.front
  {
    hide HeadingOf, NextFence, EvidenceTitle;
  }

  lemma KeptAfterSkip(m: Mode, i: nat, line: string, next: Option<string>)
    requires m.skip > 0 && !m.front && i > 0 && Step(m, i, line, next).fate == Kept
    ensures HeadingOf(line, next).level > 0
  {
    hide HeadingOf, NextFence, EvidenceTitle;
  }

  lemma EndsWithHeading(lines: seq<string>, q: nat)
    requires 1 < q < |lines| && FateAt(lines, q - 1) == Removed && FateAt(lines, q) == Kept && !Hashed(lines[q])
    ensures HeadingOf(lines[q], NextLine(lines, q)).level > 0 && HeadingOf(lines[q], NextLine(lines, q)).setext
  {
    SkipAfterRemoved(ModeAt(lines, q - 1), q - 1, lines[q - 1], NextLine(lines, q - 1));
    KeptAfterSkip(ModeAt(lines, q), q, lines[q], NextLine(lines, q));
  }

  // ---------- Both ways it can fail ----------

  lemma PlainWord(i: nat, word: string, next: Option<string>)
    requires EvidenceTitle(Trim(word)) && next.Some? && !Ruler(next.value)
    ensures Step(START, i, word, next) == Outcome(START, Kept, None)
  {
    EvidenceIsPlain(word);
    hide EvidenceTitle, Ruler, Hashed, IsFence;
    assert HeadingOf(word, next) == NO_HEADING;
  }

  lemma TitleWord(i: nat, word: string, next: Option<string>)
    requires EvidenceTitle(Trim(word)) && next.Some? && RuledBy(next.value, '-')
    ensures Step(START, i, word, next).fate == Removed
    ensures Step(START, i, word, next).mode == START.(skip := 2, underline := true)
  {
    EvidenceIsPlain(word);
    hide EvidenceTitle, RuledBy, Hashed, IsFence;
    assert HeadingOf(word, next) == Heading(2, Trim(word), true);
  }

  lemma UnderlineRow(i: nat, row: string, next: Option<string>)
    requires Ruler(row) && i > 0
    ensures Step(START.(skip := 2, underline := true), i, row, next) == Outcome(START.(skip := 2), Removed, None)
  {
    RulerIsPlain(row);
    hide Ruler, IsFence, HeadingOf;
  }

  lemma TitleRow(i: nat, row: string, next: Option<string>)
    requires Ruler(row) && i > 0 && next.Some? && RuledBy(next.value, '-')
    ensures Step(START.(skip := 2), i, row, next).fate == Kept
  {
    RulerIsPlain(row);
    assert Trim(row) != "";
    hide RuledBy, Hashed, IsFence, EvidenceTitle;
    assert HeadingOf(row, next) == Heading(2, Trim(row), true);
  }

  lemma Opened(lines: seq<string>)
    requires |lines| > 2 && Trim(lines[0]) == Trim(lines[1]) == "---"
    ensures ModeAt(lines, 2) == START
  {
    hide BodyStep;
    assert OutcomeAt(lines, 0).mode == START.(front := true);
    assert OutcomeAt(lines, 1) == FrontStep(START.(front := true), lines[1]);
  }

  /** A plain word that reads like an evidence title, the section of that title, and a title made of dashes. */
  lemma DashTitleExposes(lines: seq<string>)
    requires |lines| == 7 && Trim(lines[0]) == Trim(lines[1]) == "---"
    requires EvidenceTitle(Trim(lines[2])) && EvidenceTitle(Trim(lines[3]))
    requires RuledBy(lines[4], '-') && RuledBy(lines[5], '-') && RuledBy(lines[6], '-')
    ensures ExposedAt(lines, 2, 5)
  {
    hide Step, EvidenceTitle, RuledBy, Trim;
    Opened(lines);
    EvidenceIsPlain(lines[3]);
    PlainWord(2, lines[2], NextLine(lines, 2));
    TitleWord(3, lines[3], NextLine(lines, 3));
    UnderlineRow(4, lines[4], NextLine(lines, 4));
    TitleRow(5, lines[5], NextLine(lines, 5));
    assert ModeAt(lines, 3) == START && ModeAt(lines, 4) == START.(skip := 2, underline := true);
    assert ModeAt(lines, 5) == START.(skip := 2);
  }

  lemma TheWord()
    ensures EvidenceTitle(Trim("evidence"))
  {
    assert Trim("evidence") == "evidence";
    assert Lower("evidence") == "evidence";
  }

  /** So projecting twice is not always projecting once. */
  lemma ProjectingTwiceCanDiffer()
    ensures var raw := Join(["---", "---", "evidence", "evidence", "-", "-", "-"]);
            Projected(Projected(raw).markdown).markdown != Projected(raw).markdown
  {
    var lines := ["---", "---", "evidence", "evidence", "-", "-", "-"];
    SampleText(lines);
    TheRows();
    TheWord();
    hide *;
    PlainRaw(lines, Join(lines));
  }

  lemma SampleText(lines: seq<string>)
    requires lines == ["---", "---", "evidence", "evidence", "-", "-", "-"]
    ensures Join(lines) != [] && Join(lines)[0] != MARK && !HasReturn(Join(lines)) && Split(Join(lines)) == lines
  {
    SplitJoin(lines);
    JoinReturn(lines);
    hide Split, HasReturn;
    assert Join(lines) == lines[0] + "\n" + Join(lines[1..]);
    assert Join(lines)[0] == '-';
  }

  lemma TheRows()
    ensures Trim("---") == "---" && RuledBy("-", '-')
  {
    assert Trim("-") == "-";
  }

  lemma PlainRaw(lines: seq<string>, raw: string)
    requires raw != [] && raw[0] != MARK && !HasReturn(raw) && Split(raw) == lines && |lines| == 7
    requires Trim(lines[0]) == Trim(lines[1]) == "---" && EvidenceTitle(Trim(lines[2])) && EvidenceTitle(Trim(lines[3]))
    requires RuledBy(lines[4], '-') && RuledBy(lines[5], '-') && RuledBy(lines[6], '-')
    ensures Projected(Projected(raw).markdown).markdown != Projected(raw).markdown
  {
    hide Step, EvidenceTitle, RuledBy, Split;
    NormalOf(raw);
    DashTitleExposes(lines);
    ProjectingTwice(raw);
  }

  /** A doubled return before a line end is left half undone, and undone the second time. */
  lemma DoubledReturnSpoilsIt(raw: string)
    requires Trim(Split(Normal(raw))[0]) == "---" && HasReturn(Projected(raw).markdown)
    ensures DoubleReturn(raw) && Projected(Projected(raw).markdown).markdown != Projected(raw).markdown
  {
    if !DoubleReturn(raw) { NoReturnLeft(raw); }
    ProjectingTwice(raw);
  }

  /** Such a text: two rules, the first with a return before its line end. */
  lemma DoubledReturnCanDiffer()
    ensures var raw := "---\r\r\n---"; Projected(Projected(raw).markdown).markdown != Projected(raw).markdown
  {
    hide Split, Normal, KeptLines, Those, SectionsUpTo, Join, Trim, HasReturn;
    var raw, lines := "---\r\r\n---", ["---\r", "---"];
    ReturnSample(raw, lines[0]);
    RulesKept(lines);
    JoinSample(lines);
    DoubledReturnSpoilsIt(raw);
  }

  lemma JoinSample(lines: seq<string>)
    requires lines == ["---\r", "---"]
    ensures HasReturn(Trim(Join(lines)) + "\n")
  {
    hide Trim;
    assert lines[1..] == ["---"];
    var text := Join(lines);
    JoinOne("---");
    assert text == lines[0] + "\n" + Join(lines[1..]);
    TrimSample(text);
    assert (text + "\n")[3] == '\r' && (text + "\n")[4] == '\n';
  }

  lemma ReturnSample(raw: string, line: string)
    requires raw == "---\r\r\n---" && line == "---\r"
    ensures Split(Normal(raw)) == [line, "---"] && Trim(line) == "---" && Trim("---") == "---"
  {
    hide Split, Trim;
    var rest := "\r\n---";
    assert WithoutReturns("---") == "---" by { WithoutReturnsIs("---"); }
    assert rest[2..] == "---" && WithoutReturns(rest) == "\n" + "---";
    var a, b, c, d := raw[1..], raw[2..], raw[3..], raw[4..];
    assert d == rest && WithoutReturns(c) == ['\r'] + WithoutReturns(d);
    assert WithoutReturns(b) == ['-'] + WithoutReturns(c) && WithoutReturns(a) == ['-'] + WithoutReturns(b);
    assert Normal(raw) == line + "\n" + "---";
    TwoRows(line);
  }

  lemma TwoRows(line: string)
    requires line == "---\r"
    ensures Split(line + "\n" + "---") == [line, "---"] && Trim(line) == "---" && Trim("---") == "---"
  {
    hide Split;
    SplitJoin([line, "---"]);
    assert [line, "---"][1..] == ["---"] && Join([line, "---"]) == line + "\n" + "---";
    TheRows();
    assert IsSpace('\r') && line[..3] == "---" && TrimLeft(line) == line;
  }

  lemma RulesKept(lines: seq<string>)
    requires |lines| == 2 && Trim(lines[0]) == "---" && Trim(lines[1]) == "---"
    ensures KeptLines(lines) == lines
  {
    assert FateAt(lines, 0) == Kept && FateAt(lines, 1) == Kept;
    assert Those(lines, Kept, 0) == [] && Those(lines, Kept, 1) == [lines[0]];
  }

  lemma TrimSample(text: string)
    requires text != [] && !IsSpace(text[0]) && !IsSpace(text[|text| - 1])
    ensures Trim(text) == text
  {
  }
}

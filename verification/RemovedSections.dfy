/** Where a removed section begins and ends, and what of the frontmatter is dropped: told by the
  lines themselves, without the pass that sorts them.
 */
module RemovedSections {
  import opened TextLines
  import opened KnowledgeProjection

  // ---------- Frontmatter, fences and titles ----------

  /** The first line is a rule and no line since is one before line `i`. */
  ghost predicate InFront(lines: seq<string>, i: nat)
    requires i <= |lines|
  {
    lines != [] && Trim(lines[0]) == "---" && forall j :: 0 < j < i ==> Trim(lines[j]) != "---"
  }

  /** The code fence that is open before line `i` of the body. */
  ghost function FenceBefore(lines: seq<string>, i: nat): string
    requires i <= |lines|
  {
    if i == 0 || InFront(lines, i - 1) then ""
    else if IsFence(Trim(lines[i - 1])) then NextFence(FenceBefore(lines, i - 1), Trim(lines[i - 1]))
    else FenceBefore(lines, i - 1)
  }

  /** The first `n` characters are all the one that begins the line, and the next is another. */
  ghost predicate RunOf(t: string, n: nat) {
    0 < n <= |t| && (forall i :: 0 <= i < n ==> t[i] == t[0]) && (n < |t| ==> t[n] != t[0])
  }

  ghost predicate ClosesFence(fence: string, t: string)
    requires fence != ""
  {
    exists n: nat :: RunOf(t, n) && t[0] == fence[0] && n >= |fence| && Blank(t[n..])
  }

  /** A fence row opens a fence with its run of backquotes or tildes; an open one is closed by a run of
      the same character that is no shorter and has nothing after it, and by nothing else. */
  lemma FenceForms(fence: string, t: string)
    requires IsFence(t)
    ensures fence == "" ==> exists n: nat :: RunOf(t, n) && n >= 3 && NextFence(fence, t) == t[..n]
    ensures fence != "" ==> NextFence(fence, t) == if ClosesFence(fence, t) then "" else fence
  {
    hide RunLength, Blank;
    var n := RunLength(t, t[0]);
    RunIs(t, t[0]);
    assert n > 0;
    assert RunOf(t, n);
    FenceRun(t);
    forall m: nat | RunOf(t, m) ensures m == n { SameRun(t, m, n); }
  }

  lemma SameRun(t: string, m: nat, n: nat)
    requires RunOf(t, m) && RunOf(t, n)
    ensures m == n
  {
  }

  lemma FenceRun(t: string)
    requires IsFence(t)
    ensures RunLength(t, t[0]) >= 3
  {
    RunIs(t, t[0]);
    assert t[0] == t[1] == t[2] by {
      if HasPrefix(t, "```") { assert t[..3] == "```"; } else { assert t[..3] == "~~~"; }
    }
  }

  /** What trimming cuts off. */
  lemma TrimParts(s: string) returns (lead: string, tail: string)
    ensures s == lead + Trim(s) + tail && Blank(lead) && Blank(tail)
    ensures Trim(s) != "" ==> !IsSpace(Trim(s)[0]) && !IsSpace(Trim(s)[|Trim(s)| - 1])
  {
    hide Blank, TrimLeft, TrimRight;
    hide Lead, Trail, IsSpace;
    var left := TrimLeft(s);
    LeadIs(s);
    TrailIs(left);
    TrimLeftIs(s);
    TrimRightIs(left);
    lead, tail := s[..Lead(s)], left[Trail(left)..];
    Halves(s, Lead(s));
    Halves(left, Trail(left));
    Regrouped(lead, Trim(s), tail);
  }

  lemma Halves(s: string, k: nat)
    requires k <= |s|
    ensures s == s[..k] + s[k..]
  {
  }

  lemma Regrouped(a: string, b: string, c: string)
    ensures a + (b + c) == a + b + c
  {
  }

  lemma {:induction false} HashesDropped(s: string)
    ensures |DropHashes(s)| <= |s| && s[..|DropHashes(s)|] == DropHashes(s)
    ensures forall i :: |DropHashes(s)| <= i < |s| ==> s[i] == '#'
    ensures DropHashes(s) != "" ==> DropHashes(s)[|DropHashes(s)| - 1] != '#'
  {
    if s != [] && s[|s| - 1] == '#' {
      HashesDropped(s[..|s| - 1]);
    } else {
      assert s[..|s|] == s;
    }
  }

  /** The title of a hashed heading is what stands behind its opening hashes, without the closing ones and
      the blanks around either. */
  lemma HashedTitle(line: string, next: Option<string>, a: nat, k: nat) returns (lead: string, gap: string, hashes: string, tail: string)
    requires HashesAt(line, a, k)
    ensures var title := HeadingOf(line, next).title;
            a + k <= |line| && line[a + k..] == lead + title + gap + hashes + tail
            && Blank(lead) && Blank(gap) && Blank(tail) && (forall i :: 0 <= i < |hashes| ==> hashes[i] == '#')
            && (title != "" ==> !IsSpace(title[0]) && !IsSpace(title[|title| - 1]))
            && (gap == "" && title != "" ==> title[|title| - 1] != '#') && (hashes == "" && title != "" ==> gap == "")
  {
    hide Trim, DropHashes, Blank, IsSpace;
    var rest := line[a + k..];
    AtxTitleIs(line, next, a, k);
    var body := Trim(rest);
    var cut := DropHashes(body);
    HashesDropped(body);
    var inner;
    inner, tail := TrimParts(rest);
    lead, gap := TrimParts(cut);
    hashes := body[|cut|..];
    Halves(body, |cut|);
    LastOfThree(lead, Trim(cut), gap);
    OneAfterAnother(inner, lead, Trim(cut), gap, hashes, tail);
    BlanksJoin(inner, lead);
    if hashes == "" {
      assert body == cut;
      NoBlankEnd(body, lead, Trim(cut), gap);
    }
    lead := inner + lead;
  }

  lemma BlanksJoin(a: string, b: string)
    requires Blank(a) && Blank(b)
    ensures Blank(a + b)
  {
  }

  lemma LastOfThree(a: string, b: string, c: string)
    ensures c == "" && b != "" ==> (a + b + c)[|a + b + c| - 1] == b[|b| - 1]
    ensures c != "" ==> (a + b + c)[|a + b + c| - 1] == c[|c| - 1]
  {
  }

  lemma NoBlankEnd(s: string, a: string, b: string, c: string)
    requires s == a + b + c && Blank(c) && (s != "" ==> !IsSpace(s[|s| - 1]))
    ensures c == ""
  {
    LastOfThree(a, b, c);
  }

  lemma OneAfterAnother(a: string, b: string, c: string, d: string, e: string, f: string)
    ensures a + (b + c + d + e) + f == (a + b) + c + d + e + f
  {
    Regrouped(a, b + c + d, e);
    Regrouped(a, b + c, d);
    Regrouped(a, b, c);
  }

  lemma AtxTitleIs(line: string, next: Option<string>, a: nat, k: nat)
    requires HashesAt(line, a, k)
    ensures HeadingOf(line, next).title == Trim(DropHashes(Trim(line[a + k..])))
  {
    hide RunLength, Trim, DropHashes;
    HashedMeans(line);
    AtxForm(line);
    assert HashAt(line, a);
    var h := DropSpaces(line);
    assert h == line[a..] && h[k..] == line[a + k..];
    RunIs(h, '#');
    RunEnds(h, '#', k);
  }

  function HeadingHere(lines: seq<string>, i: nat): Heading
    requires i < |lines|
  {
    HeadingOf(lines[i], NextLine(lines, i))
  }

  /** A heading of the body, outside code fences; a row that underlines one is not another. */
  ghost predicate TitleAt(lines: seq<string>, i: nat)
    requires i < |lines|
  {
    !InFront(lines, i) && FenceBefore(lines, i) == "" && !IsFence(Trim(lines[i])) && HeadingHere(lines, i).level > 0
    && !(i > 0 && TitleAt(lines, i - 1) && HeadingHere(lines, i - 1).setext)
  }

  ghost predicate UnderTitle(lines: seq<string>, i: nat)
    requires i <= |lines|
  {
    i > 0 && TitleAt(lines, i - 1) && HeadingHere(lines, i - 1).setext
  }

  /** A title that names evidence opens a section. */
  ghost predicate Opens(lines: seq<string>, i: nat)
    requires i < |lines|
  {
    TitleAt(lines, i) && EvidenceTitle(HeadingHere(lines, i).title)
  }

  /** A title of at most this level ends one. */
  ghost predicate EndsLevel(lines: seq<string>, i: nat, level: nat)
    requires i < |lines|
  {
    TitleAt(lines, i) && HeadingHere(lines, i).level <= level
  }

  /** The section that line `o` opens goes on up to before line `i`. */
  ghost predicate OpenFrom(lines: seq<string>, o: nat, i: nat)
    requires i <= |lines|
  {
    o < i && Opens(lines, o) && forall k :: o < k < i ==> !EndsLevel(lines, k, HeadingHere(lines, o).level)
  }

  // ---------- What the pass knows before each line ----------

  ghost predicate KnowsFront(lines: seq<string>, i: nat)
    requires i <= |lines|
  {
    var m := ModeAt(lines, i);
    (m.front <==> i > 0 && InFront(lines, i)) && (i == 0 || InFront(lines, i) ==> m.skip == 0 && m.fence == "" && !m.underline)
  }

  lemma {:induction false} FrontKnown(lines: seq<string>, i: nat)
    requires i <= |lines|
    ensures KnowsFront(lines, i)
    decreases i
  {
    hide Trim, BodyStep;
    if i > 0 {
      FrontKnown(lines, i - 1);
      ModeNext(lines, i - 1);
      if InFront(lines, i - 1) || i == 1 {
        FrontGoesOn(lines, i);
      } else {
        BodyStays(lines[i - 1], ModeAt(lines, i - 1), NextLine(lines, i - 1));
        FrontIsOver(lines, i);
      }
    }
  }

  lemma ModeNext(lines: seq<string>, i: nat)
    requires i < |lines|
    ensures ModeAt(lines, i + 1) == Step(ModeAt(lines, i), i, lines[i], NextLine(lines, i)).mode
  {
    hide Step;
  }

  lemma FrontIsOver(lines: seq<string>, i: nat)
    requires 0 < i <= |lines| && !InFront(lines, i - 1)
    ensures !InFront(lines, i)
  {
    hide Trim;
    if lines != [] && Trim(lines[0]) == "---" {
      var j :| 0 < j < i - 1 && Trim(lines[j]) == "---";
    }
  }

  lemma BodyStays(line: string, m: Mode, next: Option<string>)
    requires !m.front
    ensures !BodyStep(m, line, next).mode.front
  {
    hide Trim, HeadingOf, IsFence, EvidenceTitle;
  }

  lemma StartMode(lines: seq<string>)
    ensures ModeAt(lines, 0) == START
  {
  }

  lemma FrontGoesOn(lines: seq<string>, i: nat)
    requires 0 < i <= |lines| && KnowsFront(lines, i - 1) && (InFront(lines, i - 1) || i == 1)
    ensures KnowsFront(lines, i)
  {
    hide Trim, BodyStep, ModeAt;
    ModeNext(lines, i - 1);
    StartMode(lines);
    if i == 1 && Trim(lines[0]) != "---" { BodyStays(lines[0], START, NextLine(lines, 0)); }
  }

  /** A row of one character is no fence. */
  lemma RuledIsNoFence(line: string, c: char)
    requires RuledBy(line, c) && (c == '-' || c == '=')
    ensures !IsFence(Trim(line))
  {
    hide Trim;
    var t := Trim(line);
    assert t[0] == c;
    if |t| >= 3 { assert t[..3][0] == c && "```"[0] != c && "~~~"[0] != c; }
  }

  lemma UnderTitleIsNoFence(lines: seq<string>, i: nat)
    requires i < |lines| && UnderTitle(lines, i)
    ensures !IsFence(Trim(lines[i]))
  {
    hide Trim, IsFence, RuledBy, TitleAt, Hashed, AtxHeading;
    var h := HeadingHere(lines, i - 1);
    SetextIsRuled(lines[i - 1], NextLine(lines, i - 1));
    RuledIsNoFence(lines[i], if h.level == 1 then '=' else '-');
  }

  lemma SetextIsRuled(line: string, next: Option<string>)
    requires HeadingOf(line, next).setext
    ensures next.Some? && RuledBy(next.value, if HeadingOf(line, next).level == 1 then '=' else '-')
  {
    HeadingForms(line, next);
  }

  ghost predicate KnowsBody(lines: seq<string>, i: nat)
    requires i <= |lines|
  {
    var m := ModeAt(lines, i);
    m.fence == FenceBefore(lines, i) && (m.underline <==> UnderTitle(lines, i))
  }

  lemma {:induction false} BodyKnown(lines: seq<string>, i: nat)
    requires i <= |lines|
    ensures KnowsBody(lines, i)
    decreases i
  {
    hide Trim, IsFence, HeadingOf, EvidenceTitle, InFront, NextFence;
    FrontKnown(lines, i);
    if i > 0 {
      BodyKnown(lines, i - 1);
      FrontKnown(lines, i - 1);
      FirstLineFronts(lines);
      ModeNext(lines, i - 1);
      StartMode(lines);
      if InFront(lines, i - 1) {
        FrontStepKeeps(ModeAt(lines, i - 1), lines[i - 1]);
      } else {
        if UnderTitle(lines, i - 1) { UnderTitleIsNoFence(lines, i - 1); }
      }
    }
  }

  /** The rule that opens the frontmatter belongs to it. */
  lemma FirstLineFronts(lines: seq<string>)
    requires lines != []
    ensures InFront(lines, 0) <==> Trim(lines[0]) == "---"
  {
  }

  lemma FrontStepKeeps(m: Mode, line: string)
    ensures var o := FrontStep(m, line); o.mode.skip == m.skip && o.mode.fence == m.fence && o.mode.underline == m.underline && o.fate != Removed
  {
    hide Trim;
  }

  /** How deep the pass is in sections: the level of the one opened last among those still open that
      nothing shallower contains. */
  ghost predicate KnowsSection(lines: seq<string>, i: nat)
    requires i <= |lines|
  {
    var m := ModeAt(lines, i);
    (m.skip > 0 ==> exists o :: OpenFrom(lines, o, i) && HeadingHere(lines, o).level == m.skip)
    && forall o :: OpenFrom(lines, o, i) ==> 0 < m.skip <= HeadingHere(lines, o).level
  }

  /** Reading one line: the level the pass has after it. */
  lemma SkipAfter(lines: seq<string>, i: nat)
    requires i < |lines| && KnowsFront(lines, i) && KnowsBody(lines, i)
    ensures var m, s := ModeAt(lines, i), ModeAt(lines, i + 1).skip;
            if TitleAt(lines, i) then
              var h := HeadingHere(lines, i);
              var kept := if m.skip > 0 && h.level > m.skip then m.skip else 0;
              s == if kept == 0 && EvidenceTitle(h.title) then h.level else kept
            else s == m.skip
    ensures !InFront(lines, i) ==> (FateAt(lines, i) == Removed <==> ModeAt(lines, i + 1).skip > 0) && FateAt(lines, i) != Metadata
    ensures InFront(lines, i) ==> FateAt(lines, i) != Removed
  {
    hide Trim, IsFence, HeadingOf, EvidenceTitle, InFront, NextFence;
    FirstLineFronts(lines);
    if UnderTitle(lines, i) { UnderTitleIsNoFence(lines, i); }
    if InFront(lines, i) { FrontStepKeeps(ModeAt(lines, i), lines[i]); }
  }

  lemma OpenOneMore(lines: seq<string>, o: nat, i: nat)
    requires i < |lines|
    ensures OpenFrom(lines, o, i + 1)
            <==> (o == i && Opens(lines, i)) || (OpenFrom(lines, o, i) && !EndsLevel(lines, i, HeadingHere(lines, o).level))
  {
    hide Opens, EndsLevel;
  }

  lemma {:induction false} SectionKnown(lines: seq<string>, i: nat)
    requires i <= |lines|
    ensures KnowsSection(lines, i)
    decreases i
  {
    if i > 0 {
      SectionKnown(lines, i - 1);
      FrontKnown(lines, i - 1);
      BodyKnown(lines, i - 1);
      SectionStep(lines, i - 1);
    }
  }

  lemma TitleHasLevel(lines: seq<string>, i: nat)
    requires i < |lines|
    ensures TitleAt(lines, i) ==> HeadingHere(lines, i).level > 0
  {
  }

  lemma SectionStep(lines: seq<string>, i: nat)
    requires i < |lines| && KnowsSection(lines, i) && KnowsFront(lines, i) && KnowsBody(lines, i)
    ensures KnowsSection(lines, i + 1)
  {
    hide TitleAt, KnowsFront, KnowsBody, EvidenceTitle, HeadingHere, ModeAt, InFront;
    SkipAfter(lines, i);
    TitleHasLevel(lines, i);
    var m, m' := ModeAt(lines, i), ModeAt(lines, i + 1);
    if m'.skip > 0 {
      if m.skip > 0 && !(TitleAt(lines, i) && HeadingHere(lines, i).level <= m.skip) {
        var o :| OpenFrom(lines, o, i) && HeadingHere(lines, o).level == m.skip;
        OpenOneMore(lines, o, i);
      } else {
        OpenOneMore(lines, i, i);
      }
    }
    forall o | OpenFrom(lines, o, i + 1) ensures 0 < m'.skip <= HeadingHere(lines, o).level {
      OpenOneMore(lines, o, i);
    }
  }

  // ---------- The sections that are removed ----------

  /** Line `j` lies in a section that an evidence title opens, that line included. */
  ghost predicate InSection(lines: seq<string>, j: nat)
    requires j < |lines|
  {
    exists o :: Reaches(lines, o, j)
  }

  /** The section that line `o` opens takes in line `j`. */
  ghost predicate Reaches(lines: seq<string>, o: nat, j: nat)
    requires j < |lines|
  {
    o <= j && Opens(lines, o) && forall k :: o < k <= j ==> !EndsLevel(lines, k, HeadingHere(lines, o).level)
  }

  lemma ReachesIsOpen(lines: seq<string>, o: nat, j: nat)
    requires j < |lines|
    ensures Reaches(lines, o, j) <==> OpenFrom(lines, o, j + 1)
  {
    hide Opens, EndsLevel;
  }

  /** A line is removed exactly if it lies in such a section: from the title that opens it up to the next
      title of at most its level, which is not part of it. */
  lemma RemovedIff(lines: seq<string>, j: nat)
    requires j < |lines|
    ensures FateAt(lines, j) == Removed <==> InSection(lines, j)
  {
    hide OpenFrom, InFront, ModeAt, TitleAt, FateAt;
    FrontKnown(lines, j);
    BodyKnown(lines, j);
    SkipAfter(lines, j);
    SectionKnown(lines, j + 1);
    OpenIsReached(lines, j);
    if InFront(lines, j) { NothingOpensInFront(lines, j); }
  }

  lemma OpenIsReached(lines: seq<string>, j: nat)
    requires j < |lines| && KnowsSection(lines, j + 1)
    ensures InSection(lines, j) <==> ModeAt(lines, j + 1).skip > 0
  {
    hide Opens, EndsLevel, ModeAt, HeadingHere;
    if InSection(lines, j) {
      var o :| Reaches(lines, o, j);
      ReachesIsOpen(lines, o, j);
    }
    if ModeAt(lines, j + 1).skip > 0 {
      var o :| OpenFrom(lines, o, j + 1) && HeadingHere(lines, o).level == ModeAt(lines, j + 1).skip;
      ReachesIsOpen(lines, o, j);
    }
  }

  lemma NothingOpensInFront(lines: seq<string>, j: nat)
    requires j < |lines| && InFront(lines, j)
    ensures !InSection(lines, j)
  {
    hide Trim, IsFence, EvidenceTitle, HeadingHere;
    forall o: nat | o <= j ensures InFront(lines, o) {}
  }

  /** A section, line by line: opened at `o` outside any other, it takes every line up to `e`, the next
      title of at most its level; that one is kept unless it names evidence itself. */
  lemma SectionEndsAt(lines: seq<string>, o: nat, e: nat)
    requires o < e < |lines| && Opens(lines, o) && EndsLevel(lines, e, HeadingHere(lines, o).level)
    requires forall k :: o < k < e ==> !EndsLevel(lines, k, HeadingHere(lines, o).level)
    requires forall p :: !OpenFrom(lines, p, o)
    ensures forall j :: o <= j < e ==> FateAt(lines, j) == Removed
    ensures FateAt(lines, e) == (if EvidenceTitle(HeadingHere(lines, e).title) then Removed else Kept)
  {
    hide TitleAt, EvidenceTitle, HeadingHere, ModeAt, FateAt, InFront;
    forall j | o <= j < e ensures FateAt(lines, j) == Removed {
      RemovedIff(lines, j);
      assert Reaches(lines, o, j);
    }
    RemovedIff(lines, e);
    BodyFates(lines, e);
    if EvidenceTitle(HeadingHere(lines, e).title) {
      assert Reaches(lines, e, e);
    } else {
      forall p: nat ensures !Reaches(lines, p, e) { NoneOutlives(lines, o, e, p); }
    }
  }

  lemma BodyFates(lines: seq<string>, e: nat)
    requires e < |lines| && TitleAt(lines, e)
    ensures FateAt(lines, e) != Metadata
  {
    FrontKnown(lines, e);
    BodyKnown(lines, e);
    SkipAfter(lines, e);
  }

  /** Sections opened inside another do not outlive it. */
  lemma NoneOutlives(lines: seq<string>, o: nat, e: nat, p: nat)
    requires o < e < |lines| && Opens(lines, o) && EndsLevel(lines, e, HeadingHere(lines, o).level) && !Opens(lines, e)
    requires forall k :: o < k < e ==> !EndsLevel(lines, k, HeadingHere(lines, o).level)
    requires !OpenFrom(lines, p, o)
    ensures !Reaches(lines, p, e)
  {
    hide TitleAt, EvidenceTitle, HeadingHere;
    if o < p < e && Opens(lines, p) { Deeper(lines, o, e, p); }
  }

  lemma Deeper(lines: seq<string>, o: nat, e: nat, p: nat)
    requires o < p < e < |lines| && Opens(lines, p) && EndsLevel(lines, e, HeadingHere(lines, o).level)
    requires !EndsLevel(lines, p, HeadingHere(lines, o).level)
    ensures EndsLevel(lines, e, HeadingHere(lines, p).level)
  {
    hide TitleAt, EvidenceTitle, HeadingHere;
  }

  // ---------- The frontmatter ----------

  /** A line of the evidence field: the one that begins it, or one that continues it. */
  ghost predicate EvidenceField(lines: seq<string>, i: nat)
    requires i < |lines|
  {
    exists b :: 0 < b <= i && HasPrefix(lines[b], "evidence:")
                && forall k :: b < k <= i ==> HasPrefix(lines[k], "evidence:") || EvidenceContinues(lines[k])
  }

  lemma {:induction false} FieldKnown(lines: seq<string>, i: nat)
    requires 0 < i <= |lines| && InFront(lines, i)
    ensures ModeAt(lines, i).evidence <==> i > 1 && EvidenceField(lines, i - 1)
    decreases i
  {
    hide Trim, HasPrefix, EvidenceContinues, BodyStep;
    FrontKnown(lines, i - 1);
    if i > 1 {
      assert InFront(lines, i - 1);
      FieldKnown(lines, i - 1);
      FieldNext(lines, i - 1);
    }
  }

  lemma FieldNext(lines: seq<string>, i: nat)
    requires 0 < i < |lines|
    ensures EvidenceField(lines, i)
            <==> HasPrefix(lines[i], "evidence:") || (EvidenceContinues(lines[i]) && i > 1 && EvidenceField(lines, i - 1))
  {
    hide HasPrefix, EvidenceContinues;
    if HasPrefix(lines[i], "evidence:") { assert EvidenceField(lines, i); }
    if EvidenceField(lines, i) && !HasPrefix(lines[i], "evidence:") {
      var b :| 0 < b <= i && HasPrefix(lines[b], "evidence:")
               && forall k :: b < k <= i ==> HasPrefix(lines[k], "evidence:") || EvidenceContinues(lines[k]);
      assert EvidenceField(lines, i - 1);
    }
    if EvidenceContinues(lines[i]) && i > 1 && EvidenceField(lines, i - 1) {
      var b :| 0 < b <= i - 1 && HasPrefix(lines[b], "evidence:")
               && forall k :: b < k <= i - 1 ==> HasPrefix(lines[k], "evidence:") || EvidenceContinues(lines[k]);
      assert EvidenceField(lines, i);
    }
  }

  /** Of the frontmatter exactly the evidence field is dropped; of the body nothing is. */
  lemma DroppedIff(lines: seq<string>, i: nat)
    requires i < |lines|
    ensures FateAt(lines, i) == Metadata
            <==> i > 0 && InFront(lines, i) && Trim(lines[i]) != "---" && EvidenceField(lines, i)
  {
    hide Trim, HasPrefix, EvidenceContinues, BodyStep;
    FrontKnown(lines, i);
    if i > 0 && InFront(lines, i) {
      FieldKnown(lines, i);
      FieldNext(lines, i);
    } else if i > 0 || Trim(lines[0]) != "---" {
      BodyKnown(lines, i);
      SkipAfter(lines, i);
    }
  }

  // ---------- What the projection is made of ----------

  /** The lines of no section and no evidence field, in order. */
  ghost function Outside(lines: seq<string>, n: nat): seq<string>
    requires n <= |lines|
  {
    if n == 0 then []
    else if InSection(lines, n - 1) || Dropped(lines, n - 1) then Outside(lines, n - 1)
    else Outside(lines, n - 1) + [lines[n - 1]]
  }

  ghost function Inside(lines: seq<string>, n: nat): seq<string>
    requires n <= |lines|
  {
    if n == 0 then [] else if InSection(lines, n - 1) then Inside(lines, n - 1) + [lines[n - 1]] else Inside(lines, n - 1)
  }

  ghost predicate Dropped(lines: seq<string>, i: nat)
    requires i < |lines|
  {
    i > 0 && InFront(lines, i) && Trim(lines[i]) != "---" && EvidenceField(lines, i)
  }

  lemma {:induction false} ThoseAre(lines: seq<string>, n: nat)
    requires n <= |lines|
    ensures Those(lines, Kept, n) == Outside(lines, n) && Those(lines, Removed, n) == Inside(lines, n)
    decreases n
  {
    hide FateAt, InSection, Dropped;
    if n > 0 {
      ThoseAre(lines, n - 1);
      RemovedIff(lines, n - 1);
      DropsAre(lines, n - 1);
    }
  }

  lemma DropsAre(lines: seq<string>, i: nat)
    requires i < |lines|
    ensures FateAt(lines, i) == Metadata <==> Dropped(lines, i)
  {
    hide FateAt;
    DroppedIff(lines, i);
  }

  /** What is uploaded is what no section and no evidence field takes, trimmed and with a final newline;
      what was removed is the sections. */
  lemma ProjectionIs(raw: string)
    ensures var lines, p := Split(Normal(raw)), Projected(raw);
            p.markdown == Trim(Join(Outside(lines, |lines|))) + "\n" && p.removed == Join(Inside(lines, |lines|))
  {
    hide Those, Outside, Inside, Trim, Split, Normal, Join;
    var lines := Split(Normal(raw));
    ThoseAre(lines, |lines|);
  }

  /** A section is named where it opens, unless it opens inside another that goes on; and the evidence
      field of the frontmatter is named where it begins. */
  lemma NamedIff(lines: seq<string>, i: nat)
    requires i < |lines|
    ensures OutcomeAt(lines, i).section
         == if i > 0 && InFront(lines, i) && Trim(lines[i]) != "---" && HasPrefix(lines[i], "evidence:") then Some("evidence metadata")
            else if Opens(lines, i) && !Nested(lines, i) then Some(Lower(HeadingHere(lines, i).title))
            else None
  {
    hide Trim, IsFence, HeadingOf, EvidenceTitle, InFront, NextFence, EndsLevel, Lower, HasPrefix;
    FrontKnown(lines, i);
    BodyKnown(lines, i);
    SectionKnown(lines, i);
    FirstLineFronts(lines);
    if UnderTitle(lines, i) { UnderTitleIsNoFence(lines, i); }
    if TitleAt(lines, i) { NestedIff(lines, i); }
  }

  /** A section opened before it takes the line in. */
  ghost predicate Nested(lines: seq<string>, i: nat)
    requires i < |lines|
  {
    exists p: nat :: p < i && Reaches(lines, p, i)
  }

  lemma NestedIff(lines: seq<string>, i: nat)
    requires i < |lines| && KnowsSection(lines, i) && TitleAt(lines, i)
    ensures ModeAt(lines, i).skip > 0 && HeadingHere(lines, i).level > ModeAt(lines, i).skip <==> Nested(lines, i)
  {
    hide TitleAt, HeadingHere, ModeAt, Opens, Reaches, EndsLevel;
    var m, h := ModeAt(lines, i), HeadingHere(lines, i);
    if m.skip > 0 && h.level > m.skip {
      var o :| OpenFrom(lines, o, i) && HeadingHere(lines, o).level == m.skip;
      OpenReaches(lines, o, i);
    }
    if Nested(lines, i) {
      var p: nat :| p < i && Reaches(lines, p, i);
      OpenReaches(lines, p, i);
    }
  }

  lemma OpenReaches(lines: seq<string>, p: nat, i: nat)
    requires i < |lines| && TitleAt(lines, i)
    ensures OpenFrom(lines, p, i) && HeadingHere(lines, i).level > HeadingHere(lines, p).level <==> p < i && Reaches(lines, p, i)
  {
    hide HeadingHere, Opens, TitleAt;
    if p < i {
      var level := HeadingHere(lines, p).level;
      assert EndsLevel(lines, i, level) <==> HeadingHere(lines, i).level <= level;
    }
  }
}

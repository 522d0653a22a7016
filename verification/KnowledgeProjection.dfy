/** Taking the evidence out of a finding: one pass over its lines with one line of lookahead. */
module KnowledgeProjection {
  import opened TextLines

  datatype Option<T> = None | Some(value: T)

  /** Kept goes to the projection, Removed to the local preview, Metadata nowhere. */
  datatype Fate = Kept | Removed | Metadata

  datatype Mode = Mode(front: bool, evidence: bool, skip: nat, fence: string, underline: bool)

  datatype Outcome = Outcome(mode: Mode, fate: Fate, section: Option<string>)

  datatype Heading = Heading(level: nat, title: string, setext: bool)

  datatype Projection = Projection(markdown: string, sections: seq<string>, removed: string)

  const START := Mode(false, false, 0, "", false)

  const NO_HEADING := Heading(0, "", false)

  // ---------- What a line is ----------

  function RunLength(s: string, c: char): (n: nat)
    ensures n <= |s|
  {
    if s != [] && s[0] == c then 1 + RunLength(s[1..], c) else 0
  }

  function DropSpaces(s: string): string { s[RunLength(s, ' ')..] }

  function DropHashes(s: string): string {
    if s != [] && s[|s| - 1] == '#' then DropHashes(s[..|s| - 1]) else s
  }

  function Lower(s: string): string {
    if s == [] then [] else [if 'A' <= s[0] <= 'Z' then (s[0] as int + 32) as char else s[0]] + Lower(s[1..])
  }

  predicate IsFence(trim: string) { HasPrefix(trim, "```") || HasPrefix(trim, "~~~") }

  /** Nothing but '=' or nothing but '-'. */
  predicate RuledBy(line: string, c: char) {
    Trim(line) != "" && forall i :: 0 <= i < |Trim(line)| ==> Trim(line)[i] == c
  }

  predicate Ruler(line: string) { RuledBy(line, '=') || RuledBy(line, '-') }

  predicate Hashed(line: string) { RunLength(line, ' ') <= 3 && HasPrefix(DropSpaces(line), "#") }

  function AtxOf(h: string): Heading {
    var level := RunLength(h, '#');
    if level <= 6 && |h| > level && h[level] == ' ' then Heading(level, Trim(DropHashes(Trim(h[level..]))), false) else NO_HEADING
  }

  function AtxHeading(line: string): Heading { AtxOf(DropSpaces(line)) }

  function HeadingOf(line: string, next: Option<string>): Heading {
    if Hashed(line) then AtxHeading(line)
    else if Trim(line) != "" && next.Some? then
      if RuledBy(next.value, '-') then Heading(2, Trim(line), true)
      else if RuledBy(next.value, '=') then Heading(1, Trim(line), true)
      else NO_HEADING
    else NO_HEADING
  }

  predicate EvidenceTitle(title: string) {
    var t := Lower(title);
    t == "evidence" || t == "supporting evidence" || t == "research log" || t == "investigation log"
  }

  function NextFence(fence: string, trim: string): string
    requires IsFence(trim)
  {
    var n := RunLength(trim, trim[0]);
    if fence == "" then trim[..n]
    else if trim[0] == fence[0] && n >= |fence| && Blank(trim[n..]) then ""
    else fence
  }

  // ---------- One line ----------

  function Shelf(skip: nat): Fate { if skip == 0 then Kept else Removed }

  predicate EvidenceContinues(line: string) {
    Trim(line) == "" || HasPrefix(line, " ") || HasPrefix(line, "\t") || HasPrefix(line, "- ")
  }

  function FrontStep(m: Mode, line: string): Outcome {
    if Trim(line) == "---" then Outcome(m.(front := false, evidence := false), Kept, None)
    else if HasPrefix(line, "evidence:") then Outcome(m.(evidence := true), Metadata, Some("evidence metadata"))
    else if m.evidence && EvidenceContinues(line) then Outcome(m, Metadata, None)
    else Outcome(m.(evidence := false), Kept, None)
  }

  function HeadingStep(m: Mode, h: Heading): Outcome {
    var skip := if m.skip > 0 && h.level <= m.skip then 0 else m.skip;
    if skip == 0 && EvidenceTitle(h.title) then Outcome(m.(skip := h.level, underline := h.setext), Removed, Some(Lower(h.title)))
    else Outcome(m.(skip := skip, underline := h.setext), Shelf(skip), None)
  }

  function BodyStep(m: Mode, line: string, next: Option<string>): Outcome {
    if IsFence(Trim(line)) then Outcome(m.(fence := NextFence(m.fence, Trim(line))), Shelf(m.skip), None)
    else if m.underline then Outcome(m.(underline := false), Shelf(m.skip), None)
    else if m.fence == "" && HeadingOf(line, next).level > 0 then HeadingStep(m, HeadingOf(line, next))
    else Outcome(m, Shelf(m.skip), None)
  }

  function Step(m: Mode, i: nat, line: string, next: Option<string>): Outcome {
    if i == 0 && Trim(line) == "---" then Outcome(m.(front := true), Kept, None)
    else if m.front then FrontStep(m, line)
    else BodyStep(m, line, next)
  }

  // ---------- All lines ----------

  function NextLine(lines: seq<string>, i: nat): Option<string> { if i + 1 < |lines| then Some(lines[i + 1]) else None }

  function ModeAt(lines: seq<string>, i: nat): Mode
    requires i <= |lines|
    decreases i, 0
  {
    if i == 0 then START else OutcomeAt(lines, i - 1).mode
  }

  function OutcomeAt(lines: seq<string>, i: nat): Outcome
    requires i < |lines|
    decreases i, 1
  {
    Step(ModeAt(lines, i), i, lines[i], NextLine(lines, i))
  }

  function FateAt(lines: seq<string>, i: nat): Fate
    requires i < |lines|
  {
    OutcomeAt(lines, i).fate
  }

  /** The first `n` lines of one fate, in order. */
  function Those(lines: seq<string>, fate: Fate, n: nat): seq<string>
    requires n <= |lines|
  {
    if n == 0 then []
    else if FateAt(lines, n - 1) == fate then Those(lines, fate, n - 1) + [lines[n - 1]]
    else Those(lines, fate, n - 1)
  }

  function SectionsUpTo(lines: seq<string>, n: nat): seq<string>
    requires n <= |lines|
  {
    if n == 0 then []
    else
      match OutcomeAt(lines, n - 1).section
      case None => SectionsUpTo(lines, n - 1)
      case Some(s) => SectionsUpTo(lines, n - 1) + [s]
  }

  /** The byte order mark goes, and two-character line ends become one, once. */
  function WithoutReturns(s: string): string {
    if |s| >= 2 && s[0] == '\r' && s[1] == '\n' then "\n" + WithoutReturns(s[2..])
    else if s == [] then []
    else [s[0]] + WithoutReturns(s[1..])
  }

  const MARK: char := '\U{FEFF}'

  function Normal(raw: string): string {
    WithoutReturns(if raw != [] && raw[0] == MARK then raw[1..] else raw)
  }

  function KeptLines(lines: seq<string>): seq<string> { Those(lines, Kept, |lines|) }

  function Markdown(lines: seq<string>): string { Trim(Join(KeptLines(lines))) + "\n" }

  function Projected(raw: string): Projection {
    var lines := Split(Normal(raw));
    Projection(Markdown(lines), SectionsUpTo(lines, |lines|), Join(Those(lines, Removed, |lines|)))
  }

  // ---------- What a heading looks like ----------

  /** At most three spaces, then a hash. */
  predicate HashAt(line: string, a: nat) { a <= 3 && a < |line| && line[a] == '#' && forall i :: 0 <= i < a ==> line[i] == ' ' }

  /** At most three spaces, one to six hashes, and a space. */
  predicate HashesAt(line: string, a: nat, k: nat) {
    HashAt(line, a) && 1 <= k <= 6 && a + k < |line| && line[a + k] == ' ' && forall i :: a <= i < a + k ==> line[i] == '#'
  }

  lemma {:induction false} RunIs(s: string, c: char)
    ensures forall i :: 0 <= i < RunLength(s, c) ==> s[i] == c
    ensures RunLength(s, c) < |s| ==> s[RunLength(s, c)] != c
    decreases |s|
  {
    if s != [] && s[0] == c {
      RunIs(s[1..], c);
      assert forall i :: 0 < i < |s| ==> s[i] == s[1..][i - 1];
    }
  }

  lemma {:induction false} RunEnds(s: string, c: char, n: nat)
    requires n < |s| && s[n] != c && forall i :: 0 <= i < n ==> s[i] == c
    ensures RunLength(s, c) == n
    decreases n
  {
    if n > 0 { RunEnds(s[1..], c, n - 1); }
  }

  lemma HashedMeans(line: string)
    ensures Hashed(line) <==> HashAt(line, RunLength(line, ' '))
    ensures forall a: nat :: HashAt(line, a) ==> a == RunLength(line, ' ')
  {
    hide RunLength;
    RunIs(line, ' ');
    var h := DropSpaces(line);
    if h != [] { assert HasPrefix(h, "#") <==> h[0] == '#' by { assert h[..1] == [h[0]]; } }
    forall a: nat | HashAt(line, a) ensures a == RunLength(line, ' ') { RunEnds(line, ' ', a); }
  }

  /** A line is a hashed heading exactly if it has that form, and of the level it shows; it is an
      underlined one exactly if it says something, no hash opens it and a row of '=' or '-' follows. */
  lemma HeadingForms(line: string, next: Option<string>)
    ensures var h := HeadingOf(line, next);
            (h.level > 0 && !h.setext <==> exists a: nat, k: nat :: HashesAt(line, a, k))
            && (forall a: nat, k: nat :: HashesAt(line, a, k) ==> h.level == k)
            && (h.setext <==> Trim(line) != "" && (forall a: nat :: !HashAt(line, a)) && next.Some? && Ruler(next.value))
            && (h.setext ==> h.title == Trim(line) && 1 <= h.level <= 2 && RuledBy(next.value, if h.level == 1 then '=' else '-'))
  {
    hide RunLength, Trim, DropHashes;
    var h, a := HeadingOf(line, next), RunLength(line, ' ');
    HashedMeans(line);
    if Hashed(line) {
      AtxForm(line);
    }
  }

  lemma AtxForm(line: string)
    requires HashAt(line, RunLength(line, ' '))
    ensures var h := AtxHeading(line);
            !h.setext && (h.level > 0 <==> HashesAt(line, RunLength(line, ' '), h.level))
            && forall k: nat :: HashesAt(line, RunLength(line, ' '), k) ==> h.level == k
  {
    hide Trim, DropHashes;
    var a := RunLength(line, ' ');
    var h := DropSpaces(line);
    hide RunLength;
    RunIs(h, '#');
    assert h[0] == '#' && forall i :: 0 <= i < |h| ==> h[i] == line[a + i];
    var level := RunLength(h, '#');
    assert level > 0;
    forall k: nat | HashesAt(line, a, k) ensures k == level {
      assert h[k] == line[a + k];
      RunEnds(h, '#', k);
    }
    if level <= 6 && |h| > level && h[level] == ' ' { assert HashesAt(line, a, level); }
  }

  // ---------- As the source runs it ----------

  method HeadingAt(line: string, next: Option<string>) returns (level: nat, title: string, setext: bool)
    ensures Heading(level, title, setext) == HeadingOf(line, next)
  {
    level, title, setext := 0, "", false;
    var heading := DropSpaces(line);
    if |line| - |heading| <= 3 && HasPrefix(heading, "#") {
      level := RunLength(heading, '#');
      if level <= 6 && |heading| > level && heading[level] == ' ' {
        title := Trim(DropHashes(Trim(heading[level..])));
      } else {
        level := 0;
      }
    } else if Trim(line) != "" && next.Some? {
      if RuledBy(next.value, '=') { level, title, setext := 1, Trim(line), true; }
      if RuledBy(next.value, '-') { level, title, setext := 2, Trim(line), true; }
    }
  }

  /** Inside the frontmatter: the evidence field and its continuation are dropped. */
  method FrontLine(m: Mode, line: string) returns (o: Outcome)
    requires m.front
    ensures o == FrontStep(m, line)
  {
    if Trim(line) == "---" { return Outcome(m.(front := false, evidence := false), Kept, None); }
    if HasPrefix(line, "evidence:") { return Outcome(m.(evidence := true), Metadata, Some("evidence metadata")); }
    if m.evidence && EvidenceContinues(line) { return Outcome(m, Metadata, None); }
    o := Outcome(m.(evidence := false), Kept, None);
  }

  method BodyLine(m: Mode, line: string, next: Option<string>) returns (o: Outcome)
    requires !m.front
    ensures o == BodyStep(m, line, next)
  {
    var trim := Trim(line);
    var skip, fence, underline := m.skip, m.fence, m.underline;
    var section: Option<string> := None;
    if IsFence(trim) {
      var length := RunLength(trim, trim[0]);
      if fence == "" {
        fence := trim[..length];
      } else if trim[0] == fence[0] && length >= |fence| && Blank(trim[length..]) {
        fence := "";
      }
    } else if underline {
      underline := false;
    } else if fence == "" {
      var level, title, setext := HeadingAt(line, next);
      if level > 0 {
        underline := setext;
        if skip > 0 && level <= skip { skip := 0; }
        if skip == 0 && EvidenceTitle(title) {
          skip := level;
          section := Some(Lower(title));
        }
      }
    }
    o := Outcome(m.(skip := skip, fence := fence, underline := underline), Shelf(skip), section);
  }

  /** One pass; every line is kept, set aside, or dropped as evidence metadata. */
  method ProjectKnowledge(raw: string) returns (p: Projection)
    ensures p == Projected(raw)
  {
    var lines := Split(Normal(raw));
    var out: seq<string>, removed: seq<string>, sections: seq<string> := [], [], [];
    var m := START;
    var i := 0;
    hide FrontStep, BodyStep;
    while i < |lines|
      invariant 0 <= i <= |lines| && m == ModeAt(lines, i)
      invariant out == Those(lines, Kept, i) && removed == Those(lines, Removed, i) && sections == SectionsUpTo(lines, i)
    {
      var o: Outcome;
      if i == 0 && Trim(lines[i]) == "---" {
        o := Outcome(m.(front := true), Kept, None);
      } else if m.front {
        o := FrontLine(m, lines[i]);
      } else {
        o := BodyLine(m, lines[i], NextLine(lines, i));
      }
      m := o.mode;
      if o.section.Some? { sections := sections + [o.section.value]; }
      if o.fate == Kept { out := out + [lines[i]]; }
      if o.fate == Removed { removed := removed + [lines[i]]; }
      i := i + 1;
    }
    p := Projection(Trim(Join(out)) + "\n", sections, Join(removed));
  }
}

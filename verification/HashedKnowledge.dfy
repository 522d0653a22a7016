/** What a finding's fingerprint depends on, said by the positions of its lines: which lines count, and
  when a change of one of them is seen.
 */
module HashedKnowledge {
  import opened TextLines
  import opened FindingIdentity

  // ---------- Which lines count ----------

  /** A first line "---" opens the frontmatter and the next such line closes it. */
  ghost predicate InFront(lines: seq<string>, i: nat)
    requires i < |lines|
  {
    i > 0 && lines[0] == "---" && forall j :: 1 <= j <= i ==> lines[j] != "---"
  }

  /** The three fields the server fills in. */
  ghost predicate Uncounted(lines: seq<string>, i: nat)
    requires i < |lines|
  {
    InFront(lines, i) && ("id:" <= lines[i] || "created_at:" <= lines[i] || "knowledge_updated_at:" <= lines[i])
  }

  function Counted(lines: seq<string>): seq<string>
    requires lines != []
  {
    [lines[0]] + HashedLines(lines[1..], lines[0] == "---")
  }

  /** The lines at these places, which are all those from here on that count. */
  ghost predicate CountedAt(lines: seq<string>, from: nat, kept: seq<string>, at: seq<nat>) {
    |kept| == |at| && (forall k :: 0 <= k < |at| ==> from <= at[k] < |lines| && kept[k] == lines[at[k]])
    && (forall j, k :: 0 <= j < k < |at| ==> at[j] < at[k])
    && forall i :: from <= i < |lines| ==> (i in at <==> !Uncounted(lines, i))
  }

  /** Whether the frontmatter is still open before this line. */
  ghost predicate OpenBefore(lines: seq<string>, i: nat)
    requires 0 < i <= |lines|
  {
    lines[0] == "---" && forall j :: 1 <= j < i ==> lines[j] != "---"
  }

  lemma CountedNext(lines: seq<string>, i: nat, kept: seq<string>, at: seq<nat>)
    requires 0 < i < |lines| && CountedAt(lines, i + 1, kept, at)
    ensures if Uncounted(lines, i) then CountedAt(lines, i, kept, at) else CountedAt(lines, i, [lines[i]] + kept, [i] + at)
  {
    hide Uncounted;
    if !Uncounted(lines, i) {
      forall m | i <= m < |lines| ensures m in [i] + at <==> !Uncounted(lines, m) {
        assert m in [i] + at <==> m == i || m in at;
      }
    }
  }

  lemma UnhashedIs(lines: seq<string>, i: nat)
    requires 0 < i < |lines|
    ensures Uncounted(lines, i) <==> OpenBefore(lines, i) && lines[i] != "---" && Unhashed(lines[i])
    ensures i + 1 <= |lines| && (OpenBefore(lines, i + 1) <==> OpenBefore(lines, i) && lines[i] != "---")
  {
  }

  lemma NoneCounted(lines: seq<string>)
    ensures CountedAt(lines, |lines|, [], [])
  {
  }

  lemma {:induction false} CountedOnwards(lines: seq<string>, i: nat) returns (at: seq<nat>)
    requires 0 < i <= |lines|
    ensures CountedAt(lines, i, HashedLines(lines[i..], OpenBefore(lines, i)), at)
    decreases |lines| - i
  {
    hide Uncounted, OpenBefore, Unhashed, CountedAt;
    if i == |lines| {
      at := [];
      NoneCounted(lines);
    } else {
      assert lines[i..][0] == lines[i] && lines[i..][1..] == lines[i + 1..];
      UnhashedIs(lines, i);
      var rest := CountedOnwards(lines, i + 1);
      CountedNext(lines, i, HashedLines(lines[i + 1..], OpenBefore(lines, i + 1)), rest);
      at := if Uncounted(lines, i) then rest else [i] + rest;
    }
  }

  /** What is hashed is exactly the lines that count, in order. */
  lemma CountedAre(lines: seq<string>) returns (at: seq<nat>)
    requires lines != []
    ensures CountedAt(lines, 0, Counted(lines), at)
    ensures HashedText(lines) == KNOWLEDGE_FORMAT + "\n" + Trim(Join(Counted(lines))) + "\n"
  {
    var rest := CountedOnwards(lines, 1);
    at := [0] + rest;
    FirstCounts(lines, HashedLines(lines[1..], OpenBefore(lines, 1)), rest);
  }

  lemma FirstCounts(lines: seq<string>, kept: seq<string>, rest: seq<nat>)
    requires lines != [] && CountedAt(lines, 1, kept, rest)
    ensures CountedAt(lines, 0, [lines[0]] + kept, [0] + rest)
  {
    assert !Uncounted(lines, 0);
    hide Uncounted;
    forall m | 0 <= m < |lines| ensures m in [0] + rest <==> !Uncounted(lines, m) {
      assert m in [0] + rest <==> m == 0 || m in rest;
    }
  }

  // ---------- When a change is seen ----------

  /** Texts with one fingerprint are those whose counted lines are one text up to the blanks at its ends. */
  lemma SameHashIff(a: seq<string>, b: seq<string>)
    requires a != [] && b != []
    ensures HashedText(a) == HashedText(b) <==> Trim(Join(Counted(a))) == Trim(Join(Counted(b)))
  {
    hide Trim, Join, HashedLines;
    var s, t := Trim(Join(Counted(a))), Trim(Join(Counted(b)));
    if HashedText(a) == HashedText(b) { SameMiddle(KNOWLEDGE_FORMAT + "\n", s, t, "\n"); }
  }

  lemma SameMiddle(a: string, s: string, t: string, b: string)
    requires a + s + b == a + t + b
    ensures s == t
  {
    assert (a + s + b)[|a|..|a| + |s|] == s;
    assert (a + t + b)[|a|..|a| + |t|] == t;
  }

  lemma {:induction false} HashedApart(pre: seq<string>, rest: seq<string>, front: bool)
    ensures HashedLines(pre + rest, front) == HashedLines(pre, front) + HashedLines(rest, front && "---" !in pre)
  {
    if pre == [] {
      assert pre + rest == rest;
    } else {
      assert pre + rest == [pre[0]] + (pre[1..] + rest) && pre == [pre[0]] + pre[1..];
      HashedApart(pre[1..], rest, front && pre[0] != "---");
    }
  }

  function UpTo(lines: seq<string>, i: nat): seq<string>
    requires i <= |lines|
  {
    if i == 0 then [] else Counted(lines[..i])
  }

  ghost function After(lines: seq<string>, i: nat): seq<string>
    requires i < |lines|
  {
    HashedLines(lines[i + 1..], OpenBefore(lines, i + 1))
  }

  /** The counted lines are those before a counted line, the line, and those behind it. */
  lemma CountedApart(lines: seq<string>, i: nat)
    requires i < |lines| && !Uncounted(lines, i)
    ensures Counted(lines) == UpTo(lines, i) + [lines[i]] + After(lines, i)
  {
    hide Unhashed;
    if i > 0 {
      var pre, rest := lines[1..i], lines[i..];
      assert lines[1..] == pre + rest && lines[..i][1..] == pre && rest[0] == lines[i] && rest[1..] == lines[i + 1..];
      HashedApart(pre, rest, lines[0] == "---");
      FrontOpen(lines, i);
      UnhashedIs(lines, i);
    }
  }

  lemma FrontOpen(lines: seq<string>, i: nat)
    requires 0 < i <= |lines|
    ensures OpenBefore(lines, i) <==> lines[0] == "---" && "---" !in lines[1..i]
  {
    assert forall j :: 1 <= j < i ==> lines[j] == lines[1..i][j - 1];
  }

  function Closing(lines: seq<string>): string { if lines == [] then "" else Join(lines) + "\n" }

  function Opening(lines: seq<string>): string { if lines == [] then "" else "\n" + Join(lines) }

  lemma JoinTwo(a: seq<string>, b: seq<string>)
    requires a != []
    ensures Join(a + b) == Join(a) + Opening(b)
  {
    if b == [] {
      assert a + b == a;
    } else {
      JoinMore(a, b);
      assert Join(a) + "\n" + Join(b) == Join(a) + ("\n" + Join(b));
    }
  }

  lemma JoinOne(line: string)
    ensures Join([line]) == line
  {
  }

  lemma JoinAround(a: seq<string>, line: string, b: seq<string>)
    ensures Join(a + [line] + b) == Closing(a) + line + Opening(b)
  {
    hide Join, Opening;
    JoinOne(line);
    JoinTwo([line], b);
    if a == [] {
      assert a + [line] + b == [line] + b;
      assert "" + line + Opening(b) == line + Opening(b);
    } else {
      JoinMore(a, [line] + b);
      assert a + [line] + b == a + ([line] + b);
      Regroup(Join(a) + "\n", line, Opening(b));
    }
  }

  ghost predicate AllBlank(lines: seq<string>) { forall i :: 0 <= i < |lines| ==> Blank(lines[i]) }

  lemma BlankBoth(a: string, b: string)
    ensures Blank(a + b) <==> Blank(a) && Blank(b)
  {
    assert forall i :: 0 <= i < |a| ==> (a + b)[i] == a[i];
    assert forall i :: 0 <= i < |b| ==> (a + b)[|a| + i] == b[i];
  }

  lemma BlankEnds()
    ensures Blank("") && Blank("\n")
  {
  }

  lemma {:induction false} BlankJoin(lines: seq<string>)
    ensures Blank(Join(lines)) <==> AllBlank(lines)
    ensures (Blank(Closing(lines)) <==> AllBlank(lines)) && (Blank(Opening(lines)) <==> AllBlank(lines))
  {
    BlankEnds();
    hide Blank;
    if |lines| > 1 {
      BlankJoin(lines[1..]);
      BlankBoth(lines[0] + "\n", Join(lines[1..]));
      BlankBoth(lines[0], "\n");
      assert AllBlank(lines) <==> Blank(lines[0]) && AllBlank(lines[1..]) by {
        assert forall i :: 0 < i < |lines| ==> lines[i] == lines[1..][i - 1];
      }
    }
    BlankBoth(Join(lines), "\n");
    BlankBoth("\n", Join(lines));
  }

  /** What is seen of a line: its blanks do not count where nothing else stands in front or behind. */
  function Visible(line: string, first: bool, last: bool): string {
    if first && last then Trim(line) else if first then TrimLeft(line) else if last then TrimRight(line) else line
  }

  lemma {:induction false} TrimLeftBlank(s: string, t: string)
    requires Blank(s)
    ensures TrimLeft(s + t) == TrimLeft(t)
  {
    if s == [] {
      assert s + t == t;
    } else {
      assert (s + t)[1..] == s[1..] + t;
      TrimLeftBlank(s[1..], t);
    }
  }

  lemma TrimBetween(a: string, x: string, b: string)
    requires !Blank(a) && !Blank(b)
    ensures Trim(a + x + b) == TrimLeft(a) + x + TrimRight(b)
  {
    hide TrimLeft, TrimRight, Blank;
    assert a + x + b == a + (x + b);
    TrimLeftBefore(a, x + b);
    assert TrimLeft(a) + (x + b) == TrimLeft(a) + x + b;
    TrimRightAfter(TrimLeft(a) + x, b);
  }

  lemma TrimFirst(a: string, x: string, b: string)
    requires Blank(a) && !Blank(b)
    ensures Trim(a + x + b) == if Blank(x) then Trim(b) else TrimLeft(x) + TrimRight(b)
    ensures |Trim(b)| <= |TrimRight(b)|
  {
    hide TrimLeft, TrimRight, Blank;
    assert a + x + b == a + (x + b);
    TrimLeftBlank(a, x + b);
    if Blank(x) {
      TrimLeftBlank(x, b);
    } else {
      TrimLeftBefore(x, b);
      TrimRightAfter(TrimLeft(x), b);
    }
    LeadIs(b);
    var k := Lead(b);
    assert b == b[..k] + b[k..];
    BlankBoth(b[..k], b[k..]);
    TrimRightAfter(b[..k], b[k..]);
  }

  lemma TrimLast(a: string, x: string, b: string)
    requires !Blank(a) && Blank(b)
    ensures Trim(a + x + b) == if Blank(x) then Trim(a) else TrimLeft(a) + TrimRight(x)
    ensures |Trim(a)| <= |TrimLeft(a)|
  {
    hide TrimLeft, TrimRight, Blank;
    assert a + x + b == a + (x + b);
    TrimLeftBefore(a, x + b);
    assert TrimLeft(a) + (x + b) == TrimLeft(a) + x + b;
    TrimRightBlank(TrimLeft(a) + x, b);
    if Blank(x) { TrimRightBlank(TrimLeft(a), x); } else { TrimRightAfter(TrimLeft(a), x); }
    TrailIs(TrimLeft(a));
  }

  lemma TrimAlone(a: string, x: string, b: string)
    requires Blank(a) && Blank(b)
    ensures Trim(a + x + b) == Trim(x)
  {
    hide TrimLeft, TrimRight, Blank;
    assert a + x + b == a + (x + b);
    TrimLeftBlank(a, x + b);
    if Blank(x) {
      BlankBoth(x, b);
      TrimLeftIs(x + b);
      TrimLeftIs(x);
    } else {
      TrimLeftBefore(x, b);
      TrimRightBlank(TrimLeft(x), b);
    }
  }

  lemma SeenBetween(a: string, x: string, y: string, b: string)
    requires !Blank(a) && !Blank(b)
    ensures Trim(a + x + b) == Trim(a + y + b) <==> x == y
  {
    hide Trim, TrimLeft, TrimRight, Blank;
    TrimBetween(a, x, b);
    TrimBetween(a, y, b);
    if Trim(a + x + b) == Trim(a + y + b) { SameMiddle(TrimLeft(a), x, y, TrimRight(b)); }
  }

  lemma SeenFirst(a: string, x: string, y: string, b: string)
    requires Blank(a) && !Blank(b)
    ensures Trim(a + x + b) == Trim(a + y + b) <==> TrimLeft(x) == TrimLeft(y)
  {
    hide Trim, TrimLeft, TrimRight, Blank;
    TrimFirst(a, x, b);
    TrimFirst(a, y, b);
    TrimLeftIs(x);
    TrimLeftIs(y);
    if !Blank(x) && !Blank(y) && Trim(a + x + b) == Trim(a + y + b) {
      assert "" + TrimLeft(x) == TrimLeft(x) && "" + TrimLeft(y) == TrimLeft(y);
      SameMiddle("", TrimLeft(x), TrimLeft(y), TrimRight(b));
    }
  }

  lemma SeenLast(a: string, x: string, y: string, b: string)
    requires !Blank(a) && Blank(b)
    ensures Trim(a + x + b) == Trim(a + y + b) <==> TrimRight(x) == TrimRight(y)
  {
    hide Trim, TrimLeft, TrimRight, Blank;
    TrimLast(a, x, b);
    TrimLast(a, y, b);
    TrimRightIs(x);
    TrimRightIs(y);
    if !Blank(x) && !Blank(y) && Trim(a + x + b) == Trim(a + y + b) {
      assert TrimLeft(a) + TrimRight(x) + "" == TrimLeft(a) + TrimRight(x);
      assert TrimLeft(a) + TrimRight(y) + "" == TrimLeft(a) + TrimRight(y);
      SameMiddle(TrimLeft(a), TrimRight(x), TrimRight(y), "");
    }
  }

  lemma SeenIff(a: string, x: string, y: string, b: string)
    ensures Trim(a + x + b) == Trim(a + y + b) <==> Visible(x, Blank(a), Blank(b)) == Visible(y, Blank(a), Blank(b))
  {
    hide Trim, TrimLeft, TrimRight, Blank;
    if Blank(a) && Blank(b) {
      TrimAlone(a, x, b);
      TrimAlone(a, y, b);
    } else if Blank(a) {
      SeenFirst(a, x, y, b);
    } else if Blank(b) {
      SeenLast(a, x, y, b);
    } else {
      SeenBetween(a, x, y, b);
    }
  }

  /** Whether all counted lines in front of this one, or behind it, are blank. */
  ghost predicate BlankBefore(lines: seq<string>, i: nat)
    requires i < |lines|
  {
    forall j :: 0 <= j < i && !Uncounted(lines, j) ==> Blank(lines[j])
  }

  ghost predicate BlankBehind(lines: seq<string>, i: nat)
    requires i < |lines|
  {
    forall j :: i < j < |lines| && !Uncounted(lines, j) ==> Blank(lines[j])
  }

  lemma BlanksAt(lines: seq<string>, from: nat, kept: seq<string>, at: seq<nat>)
    requires CountedAt(lines, from, kept, at)
    ensures AllBlank(kept) <==> forall j :: from <= j < |lines| && !Uncounted(lines, j) ==> Blank(lines[j])
  {
    hide Uncounted, Blank;
    if AllBlank(kept) {
      forall j | from <= j < |lines| && !Uncounted(lines, j) ensures Blank(lines[j]) {
        var k :| 0 <= k < |at| && at[k] == j;
        assert Blank(kept[k]);
      }
    } else {
      var k :| 0 <= k < |kept| && !Blank(kept[k]);
      assert at[k] in at && !Uncounted(lines, at[k]);
    }
  }

  lemma BlanksAround(lines: seq<string>, i: nat)
    requires i < |lines|
    ensures AllBlank(UpTo(lines, i)) <==> BlankBefore(lines, i)
    ensures AllBlank(After(lines, i)) <==> BlankBehind(lines, i)
  {
    hide Blank, HashedLines, CountedAt;
    var behind := CountedOnwards(lines, i + 1);
    BlanksAt(lines, i + 1, After(lines, i), behind);
    if i > 0 {
      var head := lines[..i];
      var before := CountedAre(head);
      BlanksAt(head, 0, Counted(head), before);
      forall j | 0 <= j < i ensures Uncounted(head, j) <==> Uncounted(lines, j) { SamePrefix(lines, head, j); }
    }
  }

  /** Whether a line counts is up to the lines before it and the line itself. */
  lemma SamePrefix(a: seq<string>, b: seq<string>, j: nat)
    requires j < |a| && j < |b| && a[..j + 1] == b[..j + 1]
    ensures Uncounted(a, j) <==> Uncounted(b, j)
  {
    assert forall m :: 0 <= m <= j ==> a[m] == a[..j + 1][m] && b[m] == b[..j + 1][m];
  }

  // ---------- One line changed ----------

  /** One line is another, and the frontmatter reaches as far as it did. */
  ghost predicate OneLineChanged(lines: seq<string>, i: nat, line: string, changed: seq<string>) {
    i < |lines| && changed == lines[i := line] && (OpenBefore(lines, i + 1) <==> OpenBefore(changed, i + 1))
  }

  lemma SameAround(lines: seq<string>, i: nat, line: string, changed: seq<string>)
    requires OneLineChanged(lines, i, line, changed)
    ensures UpTo(changed, i) == UpTo(lines, i) && After(changed, i) == After(lines, i)
    ensures BlankBehind(changed, i) <==> BlankBehind(lines, i)
  {
    hide HashedLines, OpenBefore;
    assert changed[..i] == lines[..i] && changed[i + 1..] == lines[i + 1..];
    BlanksAround(lines, i);
    BlanksAround(changed, i);
  }

  lemma CountedChange(lines: seq<string>, i: nat, line: string, changed: seq<string>)
    requires OneLineChanged(lines, i, line, changed) && !Uncounted(lines, i) && !Uncounted(changed, i)
    ensures HashedText(changed) == HashedText(lines)
       <==> Visible(line, BlankBefore(lines, i), BlankBehind(lines, i)) == Visible(lines[i], BlankBefore(lines, i), BlankBehind(lines, i))
  {
    hide HashedLines, OpenBefore, Uncounted, Trim, Join, Blank, UpTo, After, Visible, Closing, Opening, HashedText, AllBlank, BlankBefore, BlankBehind, Counted;
    var before, behind := UpTo(lines, i), After(lines, i);
    SameAround(lines, i, line, changed);
    CountedApart(lines, i);
    CountedApart(changed, i);
    BlanksAround(lines, i);
    BlankJoin(before);
    BlankJoin(behind);
    JoinAround(before, line, behind);
    JoinAround(before, lines[i], behind);
    SeenIff(Closing(before), line, lines[i], Opening(behind));
    SameHashIff(changed, lines);
  }

  /** Where a line is left out, the lines before it and those behind it are left. */
  lemma UncountedApart(lines: seq<string>, i: nat)
    requires i < |lines| && Uncounted(lines, i)
    ensures Counted(lines) == UpTo(lines, i) + After(lines, i) && i > 0 && lines[0] == "---"
  {
    hide Unhashed;
    var pre, rest := lines[1..i], lines[i..];
    assert lines[1..] == pre + rest && lines[..i][1..] == pre && rest[0] == lines[i] && rest[1..] == lines[i + 1..];
    HashedApart(pre, rest, lines[0] == "---");
    FrontOpen(lines, i);
    UnhashedIs(lines, i);
  }

  lemma UncountedChange(lines: seq<string>, i: nat, line: string, changed: seq<string>)
    requires OneLineChanged(lines, i, line, changed) && Uncounted(lines, i) && Uncounted(changed, i)
    ensures HashedText(changed) == HashedText(lines)
  {
    hide HashedLines, OpenBefore, Uncounted, Trim, Join, UpTo, After, HashedText, BlankBehind, Counted;
    SameAround(lines, i, line, changed);
    UncountedApart(lines, i);
    UncountedApart(changed, i);
    SameHashIff(changed, lines);
  }

  lemma RuleNotBlank(lines: seq<string>)
    requires lines != [] && lines[0] == "---"
    ensures !AllBlank(lines)
  {
    assert !IsSpace(lines[0][0]);
  }

  /** One line more between texts that are not blank, and one more at the end. */
  lemma OneLineMore(a: seq<string>, line: string, b: seq<string>)
    requires a != [] && !AllBlank(a)
    ensures Trim(Join(a + [line] + b)) == Trim(Join(a + b)) <==> Blank(line) && AllBlank(b)
  {
    hide TrimLeft, TrimRight, Blank, Join, AllBlank;
    BlankEnds();
    BlankJoin(a);
    BlankJoin(b);
    JoinAround(a, line, b);
    JoinTwo(a, b);
    TrimLeftBefore(Join(a), "\n");
    if AllBlank(b) {
      TrimLast(Closing(a), line, Opening(b));
      TrimLast(Join(a), "", Opening(b));
      assert Join(a) + "" + Opening(b) == Join(a) + Opening(b);
      TrimRightBlank(TrimLeft(Join(a)), "\n");
      TrimRightIs(line);
      Shorter(TrimLeft(Join(a)));
    } else {
      TrimBetween(Closing(a), line, Opening(b));
      TrimBetween(Join(a), "", Opening(b));
      assert Join(a) + "" + Opening(b) == Join(a) + Opening(b);
    }
  }

  lemma Shorter(s: string)
    ensures |TrimRight(s)| <= |s|
  {
    TrailIs(s);
  }

  /** `more` counts the line that `less` leaves out. */
  lemma HalfCounted(more: seq<string>, less: seq<string>, i: nat)
    requires i < |less| == |more| && OneLineChanged(less, i, more[i], more) && Uncounted(less, i) && !Uncounted(more, i)
    ensures HashedText(more) == HashedText(less) <==> Blank(more[i]) && BlankBehind(less, i)
  {
    hide HashedLines, OpenBefore, Uncounted, Trim, Join, Blank, UpTo, After, HashedText, AllBlank, BlankBehind, Counted;
    var before, behind := UpTo(less, i), After(less, i);
    SameAround(less, i, more[i], more);
    UncountedApart(less, i);
    CountedApart(more, i);
    BlanksAround(less, i);
    HeadIsRule(less, i);
    RuleNotBlank(before);
    OneLineMore(before, more[i], behind);
    SameHashIff(more, less);
  }

  lemma HeadIsRule(lines: seq<string>, i: nat)
    requires 0 < i < |lines|
    ensures UpTo(lines, i) != [] && UpTo(lines, i)[0] == lines[0]
  {
  }

  /** Neither the old line nor the new one counts, or both do and look the same, or one counts and it and
      all that count behind it are blank. */
  ghost predicate Unseen(lines: seq<string>, i: nat, line: string, changed: seq<string>)
    requires OneLineChanged(lines, i, line, changed)
  {
    var first, last := BlankBefore(lines, i), BlankBehind(lines, i);
    if Uncounted(lines, i) && Uncounted(changed, i) then true
    else if Uncounted(lines, i) then Blank(line) && last
    else if Uncounted(changed, i) then Blank(lines[i]) && last
    else Visible(line, first, last) == Visible(lines[i], first, last)
  }

  /** Exactly then the fingerprint does not see that a line has changed. */
  lemma ChangedLineIff(lines: seq<string>, i: nat, line: string, changed: seq<string>)
    requires OneLineChanged(lines, i, line, changed)
    ensures HashedText(changed) == HashedText(lines)
       <==> Unseen(lines, i, line, changed)
  {
    hide HashedText, OpenBefore, Uncounted, Blank, BlankBehind, BlankBefore, Visible;
    if Uncounted(lines, i) && Uncounted(changed, i) {
      UncountedChange(lines, i, line, changed);
    } else if Uncounted(lines, i) {
      HalfCounted(changed, lines, i);
    } else if Uncounted(changed, i) {
      assert lines == changed[i := lines[i]];
      SameAround(lines, i, line, changed);
      HalfCounted(lines, changed, i);
    } else {
      CountedChange(lines, i, line, changed);
    }
  }
}

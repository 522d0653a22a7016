/** Text as lines: splitting, joining and trimming, over ASCII. */
module TextLines {

  predicate IsSpace(c: char) { c == ' ' || c == '\t' || c == '\n' || c == '\r' || c == '\U{000B}' || c == '\U{000C}' }

  function TrimLeft(s: string): string {
    if s != [] && IsSpace(s[0]) then TrimLeft(s[1..]) else s
  }

  function TrimRight(s: string): string {
    if s != [] && IsSpace(s[|s| - 1]) then TrimRight(s[..|s| - 1]) else s
  }

  function Trim(s: string): string { TrimRight(TrimLeft(s)) }

  predicate Blank(s: string) { forall i :: 0 <= i < |s| ==> IsSpace(s[i]) }

  predicate HasPrefix(s: string, p: string) { |p| <= |s| && s[..|p|] == p }

  /** Lines between newlines; a final newline leaves an empty last line. */
  function Split(text: string): (lines: seq<string>)
    ensures lines != []
  {
    if text == [] then [""]
    else
      var rest := Split(text[1..]);
      if text[0] == '\n' then [""] + rest else [[text[0]] + rest[0]] + rest[1..]
  }

  function Join(lines: seq<string>): string {
    if lines == [] then ""
    else if |lines| == 1 then lines[0]
    else lines[0] + "\n" + Join(lines[1..])
  }

  predicate OneLine(s: string) { '\n' !in s }

  ghost predicate AreLines(lines: seq<string>) { forall i :: 0 <= i < |lines| ==> OneLine(lines[i]) }

  lemma {:induction false} SplitIsLines(text: string)
    ensures AreLines(Split(text)) && Join(Split(text)) == text
  {
    if text != [] {
      SplitIsLines(text[1..]);
      var rest := Split(text[1..]);
      if text[0] != '\n' {
        assert text == [text[0]] + text[1..];
        if |rest| > 1 { assert Split(text)[1..] == rest[1..]; }
      } else {
        assert Split(text)[1..] == rest;
        assert text == "\n" + text[1..];
      }
    }
  }

  lemma {:induction false} SplitLine(line: string, rest: string)
    requires OneLine(line)
    ensures Split(line + "\n" + rest) == [line] + Split(rest)
  {
    var text := line + "\n" + rest;
    if line == [] {
      assert text[1..] == rest;
    } else {
      assert text[1..] == line[1..] + "\n" + rest;
      SplitLine(line[1..], rest);
      assert [line[0]] + line[1..] == line;
    }
  }

  lemma {:induction false} SplitLast(line: string)
    requires OneLine(line)
    ensures Split(line) == [line]
  {
    if line != [] {
      SplitLast(line[1..]);
      assert [line[0]] + line[1..] == line;
    }
  }

  /** Splitting undoes joining, for lines without newlines in them. */
  lemma {:induction false} SplitJoin(lines: seq<string>)
    requires lines != [] && AreLines(lines)
    ensures Split(Join(lines)) == lines
  {
    if |lines| == 1 {
      SplitLast(lines[0]);
      assert lines == [lines[0]];
    } else {
      SplitJoin(lines[1..]);
      SplitLine(lines[0], Join(lines[1..]));
      assert lines == [lines[0]] + lines[1..];
    }
  }

  lemma {:induction false} JoinMore(lines: seq<string>, more: seq<string>)
    requires lines != [] && more != []
    ensures Join(lines + more) == Join(lines) + "\n" + Join(more)
  {
    if |lines| == 1 {
      assert lines + more == [lines[0]] + more;
      assert (lines + more)[1..] == more;
    } else {
      JoinMore(lines[1..], more);
      assert (lines + more)[1..] == lines[1..] + more;
    }
  }

  // ---------- Trimming ----------

  /** How many blanks a text starts with, and where its last blanks start. */
  function Lead(s: string): (k: nat)
    ensures k <= |s|
  {
    if s != [] && IsSpace(s[0]) then 1 + Lead(s[1..]) else 0
  }

  function Trail(s: string): (k: nat)
    ensures k <= |s|
  {
    if s != [] && IsSpace(s[|s| - 1]) then Trail(s[..|s| - 1]) else |s|
  }

  lemma BlankMore(c: char, s: string)
    requires IsSpace(c) && Blank(s)
    ensures Blank([c] + s) && Blank(s + [c])
  {
  }

  lemma {:induction false} LeadIs(s: string)
    ensures TrimLeft(s) == s[Lead(s)..] && Blank(s[..Lead(s)])
  {
    if s != [] && IsSpace(s[0]) {
      LeadIs(s[1..]);
      var k := Lead(s[1..]);
      BlankMore(s[0], s[1..][..k]);
      hide Blank;
      assert s[1..][k..] == s[k + 1..];
      assert s[..k + 1] == [s[0]] + s[1..][..k];
    } else {
      assert s[0..] == s;
    }
  }

  lemma {:induction false} TrailIs(s: string)
    ensures TrimRight(s) == s[..Trail(s)] && Blank(s[Trail(s)..])
  {
    if s != [] && IsSpace(s[|s| - 1]) {
      var n := |s| - 1;
      TrailIs(s[..n]);
      var k := Trail(s[..n]);
      BlankMore(s[n], s[..n][k..]);
      hide Blank;
      assert s[..n][..k] == s[..k];
      assert s[k..] == s[..n][k..] + [s[n]];
    } else {
      assert s[..|s|] == s;
    }
  }

  lemma {:induction false} TrimLeftIs(s: string)
    ensures exists k :: 0 <= k <= |s| && TrimLeft(s) == s[k..] && Blank(s[..k])
    ensures TrimLeft(s) == [] || !IsSpace(TrimLeft(s)[0])
    ensures TrimLeft(s) == [] <==> Blank(s)
  {
    LeadIs(s);
    LeadEnds(s);
    var k := Lead(s);
    assert s == s[..k] + s[k..];
    assert k < |s| ==> s[k..][0] == s[k];
  }

  lemma {:induction false} LeadEnds(s: string)
    ensures Lead(s) < |s| ==> !IsSpace(s[Lead(s)])
  {
    if s != [] && IsSpace(s[0]) { LeadEnds(s[1..]); }
  }

  lemma TrimRightIs(s: string)
    ensures exists k :: 0 <= k <= |s| && TrimRight(s) == s[..k] && Blank(s[k..])
    ensures TrimRight(s) == [] || !IsSpace(TrimRight(s)[|TrimRight(s)| - 1])
    ensures TrimRight(s) == [] <==> Blank(s)
    ensures TrimRight(s) != [] ==> TrimRight(s)[0] == s[0]
  {
    TrailIs(s);
    TrailEnds(s);
    var k := Trail(s);
    assert s == s[..k] + s[k..];
    assert k > 0 ==> s[..k][k - 1] == s[k - 1];
  }

  lemma {:induction false} TrailEnds(s: string)
    ensures Trail(s) > 0 ==> !IsSpace(s[Trail(s) - 1])
  {
    if s != [] && IsSpace(s[|s| - 1]) { TrailEnds(s[..|s| - 1]); }
  }

  lemma {:induction false} TrimRightBlank(s: string, t: string)
    requires Blank(t)
    ensures TrimRight(s + t) == TrimRight(s)
    decreases |t|
  {
    if t == [] {
      assert s + t == s;
    } else {
      var n := |t| - 1;
      assert (s + t)[..|s + t| - 1] == s + t[..n];
      TrimRightBlank(s, t[..n]);
    }
  }

  lemma {:induction false} TrimRightAfter(s: string, t: string)
    requires !Blank(t)
    ensures TrimRight(s + t) == s + TrimRight(t)
    decreases |t|
  {
    var n := |t| - 1;
    assert (s + t)[|s + t| - 1] == t[n];
    if IsSpace(t[n]) {
      assert (s + t)[..|s + t| - 1] == s + t[..n];
      assert !Blank(t[..n]) by { assert t == t[..n] + [t[n]]; }
      TrimRightAfter(s, t[..n]);
    }
  }

  lemma {:induction false} TrimLeftBefore(s: string, t: string)
    requires !Blank(s)
    ensures TrimLeft(s + t) == TrimLeft(s) + t
    decreases |s|
  {
    if IsSpace(s[0]) {
      assert (s + t)[1..] == s[1..] + t;
      assert !Blank(s[1..]) by { assert s == [s[0]] + s[1..]; }
      TrimLeftBefore(s[1..], t);
    }
  }

  lemma TrimOfTrimmed(t: string)
    requires t != [] ==> !IsSpace(t[0]) && !IsSpace(t[|t| - 1])
    ensures Trim(t) == t && Trim(t + "\n") == t
  {
    if t == [] {
      assert Blank("\n") && t + "\n" == "\n";
      TrimLeftIs("\n");
    } else {
      assert !Blank(t) && TrimLeft(t) == t && TrimRight(t) == t;
      TrimLeftBefore(t, "\n");
      TrimRightBlank(t, "\n");
    }
  }

  lemma TrimTwice(s: string)
    ensures Trim(Trim(s)) == Trim(s) && Trim(Trim(s) + "\n") == Trim(s)
  {
    var left := TrimLeft(s);
    TrimLeftIs(s);
    TrimRightIs(left);
    assert Trim(s) != [] ==> left != [] && Trim(s)[0] == left[0];
    hide TrimLeft, TrimRight;
    TrimOfTrimmed(Trim(s));
  }

  // ---------- Counting ----------

  /** How many characters of a kind there are. */
  function Tally(s: string, kind: char -> bool): nat {
    if s == [] then 0 else (if kind(s[0]) then 1 else 0) + Tally(s[1..], kind)
  }

  lemma {:induction false} TallyAdds(s: string, t: string, kind: char -> bool)
    ensures Tally(s + t, kind) == Tally(s, kind) + Tally(t, kind)
  {
    if s == [] {
      assert s + t == t;
    } else {
      assert (s + t)[1..] == s[1..] + t;
      TallyAdds(s[1..], t, kind);
    }
  }

  lemma {:induction false} TallyTrimLeft(s: string, kind: char -> bool)
    ensures Tally(TrimLeft(s), kind) <= Tally(s, kind)
    ensures (forall c :: IsSpace(c) ==> !kind(c)) ==> Tally(TrimLeft(s), kind) == Tally(s, kind)
  {
    if s != [] && IsSpace(s[0]) { TallyTrimLeft(s[1..], kind); }
  }

  lemma {:induction false} TallyTrimRight(s: string, kind: char -> bool)
    ensures Tally(TrimRight(s), kind) <= Tally(s, kind)
    ensures (forall c :: IsSpace(c) ==> !kind(c)) ==> Tally(TrimRight(s), kind) == Tally(s, kind)
  {
    if s != [] && IsSpace(s[|s| - 1]) {
      var n := |s| - 1;
      TallyTrimRight(s[..n], kind);
      TallyAdds(s[..n], [s[n]], kind);
      assert s == s[..n] + [s[n]];
      assert [s[n]][1..] == [];
    }
  }

  lemma TallyTrim(s: string, kind: char -> bool)
    ensures Tally(Trim(s), kind) <= Tally(s, kind)
    ensures (forall c :: IsSpace(c) ==> !kind(c)) ==> Tally(Trim(s), kind) == Tally(s, kind)
  {
    TallyTrimLeft(s, kind);
    TallyTrimRight(TrimLeft(s), kind);
  }

  function TallyOf(lines: seq<string>, kind: char -> bool): nat {
    if lines == [] then 0 else Tally(lines[0], kind) + TallyOf(lines[1..], kind)
  }

  lemma {:induction false} TallyJoin(lines: seq<string>, kind: char -> bool)
    requires !kind('\n')
    ensures Tally(Join(lines), kind) == TallyOf(lines, kind)
  {
    if |lines| == 1 {
      assert lines[1..] == [];
    } else if |lines| > 1 {
      TallyJoin(lines[1..], kind);
      TallyAdds(lines[0] + "\n", Join(lines[1..]), kind);
      TallyAdds(lines[0], "\n", kind);
      assert Tally("\n", kind) == 0;
    }
  }

  lemma {:induction false} TallyOfAdds(lines: seq<string>, more: seq<string>, kind: char -> bool)
    ensures TallyOf(lines + more, kind) == TallyOf(lines, kind) + TallyOf(more, kind)
  {
    if lines == [] {
      assert lines + more == more;
    } else {
      assert (lines + more)[1..] == lines[1..] + more;
      TallyOfAdds(lines[1..], more, kind);
    }
  }
}

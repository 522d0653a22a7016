/** A finding's identity, dates and fingerprint, read from and written into its frontmatter.

  Positions of "\n---" in the text are positions of lines that are, or begin with, "---". How
  a date is parsed is left to `parse`, which gives back its canonical form.
 */
module FindingIdentity {
  import opened TextLines
  import opened KnowledgeProjection
  import opened CopyIdentity

  const KNOWLEDGE_FORMAT := "re-discipline-knowledge-2"

  // ---------- Fields of the frontmatter ----------

  /** The text before the first colon, and after it. */
  function Cut(line: string): Option<(string, string)> {
    if line == [] then None
    else if line[0] == ':' then Some(("", line[1..]))
    else
      match Cut(line[1..])
      case None => None
      case Some(p) => Some(([line[0]] + p.0, p.1))
  }

  lemma {:induction false} CutField(name: string, value: string)
    requires ':' !in name
    ensures Cut(name + ":" + value) == Some((name, value))
  {
    var line := name + ":" + value;
    if name == [] {
      assert line[1..] == value;
    } else {
      CutField(name[1..], value);
      assert line[1..] == name[1..] + ":" + value && line[0] == name[0];
      assert [name[0]] + name[1..] == name;
    }
  }

  lemma {:induction false} CutJoins(line: string)
    ensures Cut(line).Some? ==> line == Cut(line).value.0 + ":" + Cut(line).value.1
  {
    if line != [] && line[0] != ':' {
      CutJoins(line[1..]);
      assert line == [line[0]] + line[1..];
    }
  }

  /** The first line after the second, counting from nothing, that is the closing rule. */
  function EndFrom(lines: seq<string>, from: nat, loose: bool): Option<nat>
    decreases |lines| - from
  {
    if from >= |lines| then None
    else if lines[from] == "---" || (loose && HasPrefix(lines[from], "---")) then Some(from)
    else EndFrom(lines, from + 1, loose)
  }

  /** Exactly a rule closes it for the identity; for the dates any line that begins like one does. */
  function FrontEnd(lines: seq<string>, loose: bool): Option<nat> { EndFrom(lines, 2, loose) }

  lemma {:induction false} EndIs(lines: seq<string>, from: nat, loose: bool)
    ensures match EndFrom(lines, from, loose)
            case None => forall j :: from <= j < |lines| ==> lines[j] != "---"
            case Some(e) => from <= e < |lines| && (loose || lines[e] == "---") && (loose ==> HasPrefix(lines[e], "---"))
                            && forall j :: from <= j < e ==> lines[j] != "---" && (loose ==> !HasPrefix(lines[j], "---"))
    decreases |lines| - from
  {
    if from < |lines| && !(lines[from] == "---" || (loose && HasPrefix(lines[from], "---"))) { EndIs(lines, from + 1, loose); }
  }

  predicate HasFront(lines: seq<string>) { |lines| >= 2 && lines[0] == "---" }

  // ---------- Identity ----------

  datatype IdResult = Id(id: string) | NoFrontmatter | Unclosed | Nested | NotOne

  /** One canonical id at the top level, or none. */
  function IdsIn(lines: seq<string>): IdResult {
    if lines == [] then Id("")
    else
      var before := IdsIn(lines[..|lines| - 1]);
      if !before.Id? then before
      else
        match Cut(lines[|lines| - 1])
        case None => before
        case Some((key, value)) =>
          if Trim(key) != "id" then before
          else if key != "id" then Nested
          else if before.id != "" || !CanonicalId(Trim(value)) then NotOne
          else Id(Trim(value))
  }

  function FindingIDOf(lines: seq<string>): IdResult {
    if !HasFront(lines) then NoFrontmatter
    else
      match FrontEnd(lines, false)
      case None => Unclosed
      case Some(e) => if 1 <= e <= |lines| then IdsIn(lines[1..e]) else Unclosed
  }

  function FindingID(raw: string): IdResult { FindingIDOf(Split(Normal(raw))) }

  method FindID(raw: string) returns (r: IdResult)
    ensures r == FindingID(raw)
  {
    hide Split, Normal, EndFrom, IdsIn, Cut, Trim, CanonicalId;
    var lines := Split(Normal(raw));
    if |lines| < 2 || lines[0] != "---" { return NoFrontmatter; }
    EndIs(lines, 2, false);
    var end := FrontEnd(lines, false);
    if end.None? { return Unclosed; }
    var front := lines[1..end.value];
    var id := "";
    NoIdsIn(front);
    for i := 0 to |front|
      invariant IdsIn(front[..i]) == Id(id)
    {
      IdsNext(front, i);
      var cut := Cut(front[i]);
      if cut.Some? && Trim(cut.value.0) == "id" {
        var fault := if cut.value.0 != "id" then Nested else NotOne;
        var value := Trim(cut.value.1);
        if cut.value.0 != "id" || id != "" || !CanonicalId(value) {
          FaultStays(front, i + 1, fault);
          return fault;
        }
        id := value;
      }
    }
    assert front[..|front|] == front;
    r := Id(id);
  }

  lemma NoIdsIn(lines: seq<string>)
    ensures IdsIn(lines[..0]) == Id("")
  {
  }

  lemma IdsNext(lines: seq<string>, i: nat)
    requires i < |lines| && IdsIn(lines[..i]).Id?
    ensures IdsIn(lines[..i + 1])
         == match Cut(lines[i])
            case None => IdsIn(lines[..i])
            case Some((key, value)) =>
              if Trim(key) != "id" then IdsIn(lines[..i])
              else if key != "id" then Nested
              else if IdsIn(lines[..i]).id != "" || !CanonicalId(Trim(value)) then NotOne
              else Id(Trim(value))
  {
    hide Cut, Trim, CanonicalId;
    assert lines[..i + 1][..i] == lines[..i];
  }

  lemma {:induction false} FaultStays(lines: seq<string>, n: nat, fault: IdResult)
    requires n <= |lines| && IdsIn(lines[..n]) == fault && !fault.Id?
    ensures IdsIn(lines) == fault
    decreases |lines|
  {
    if n < |lines| {
      assert lines[..|lines| - 1][..n] == lines[..n];
      FaultStays(lines[..|lines| - 1], n, fault);
    } else {
      assert lines[..n] == lines;
    }
  }

  datatype Edited = Text(text: string) | Failed

  function LineEnd(raw: string): (n: nat)
    ensures n <= |raw|
  {
    if raw == [] then 0 else if raw[0] == '\n' then 1 else 1 + LineEnd(raw[1..])
  }

  /** The first line is kept with its own line end, which the new line takes over. */
  function WithFindingID(raw: string, id: string): Edited {
    var current := FindingID(raw);
    if !current.Id? then Failed
    else if current.id != "" then (if current.id == id then Text(raw) else Failed)
    else if !CanonicalId(id) then Failed
    else
      var start := LineEnd(raw);
      var newline := if start >= 2 && raw[start - 2] == '\r' && raw[start - 1] == '\n' then "\r\n" else "\n";
      Text(raw[..start] + "id: " + id + newline + raw[start..])
  }

  // ---------- Fingerprint ----------

  predicate Unhashed(line: string) {
    HasPrefix(line, "id:") || HasPrefix(line, "created_at:") || HasPrefix(line, "knowledge_updated_at:")
  }

  /** The lines after the first `from` that count towards the fingerprint. */
  function HashedLines(lines: seq<string>, front: bool): seq<string> {
    if lines == [] then []
    else if front && lines[0] == "---" then [lines[0]] + HashedLines(lines[1..], false)
    else if front && Unhashed(lines[0]) then HashedLines(lines[1..], front)
    else [lines[0]] + HashedLines(lines[1..], front)
  }

  function HashedText(lines: seq<string>): string
    requires lines != []
  {
    KNOWLEDGE_FORMAT + "\n" + Trim(Join([lines[0]] + HashedLines(lines[1..], lines[0] == "---"))) + "\n"
  }

  /** What is hashed; equal texts and only they have equal fingerprints. */
  function FingerprintText(raw: string): string { HashedText(Split(Normal(raw))) }

  method KnowledgeFingerprint(raw: string) returns (text: string)
    ensures text == FingerprintText(raw)
  {
    var lines := Split(Normal(raw));
    var front := lines[0] == "---";
    var kept := [lines[0]];
    ghost var all := [lines[0]] + HashedLines(lines[1..], front);
    var i := 1;
    while i < |lines|
      invariant 1 <= i <= |lines| && kept + HashedLines(lines[i..], front) == all
    {
      assert lines[i..][1..] == lines[i + 1..];
      if front && lines[i] == "---" {
        front := false;
        assert kept + ([lines[i]] + HashedLines(lines[i + 1..], false)) == kept + [lines[i]] + HashedLines(lines[i + 1..], false);
        kept := kept + [lines[i]];
      } else if !(front && Unhashed(lines[i])) {
        assert kept + ([lines[i]] + HashedLines(lines[i + 1..], front)) == kept + [lines[i]] + HashedLines(lines[i + 1..], front);
        kept := kept + [lines[i]];
      }
      i := i + 1;
    }
    assert lines[i..] == [];
    assert kept == all;
    text := KNOWLEDGE_FORMAT + "\n" + Trim(Join(kept)) + "\n";
  }

  // ---------- Writing an identity and reading it back ----------

  predicate IdNamed(line: string) { Cut(line).Some? && Trim(Cut(line).value.0) == "id" }

  /** A line of another field may come or go anywhere. */
  lemma {:induction false} IdsSkip(a: seq<string>, d: string, b: seq<string>)
    requires !IdNamed(d)
    ensures IdsIn(a + [d] + b) == IdsIn(a + b)
    decreases |b|
  {
    if b == [] {
      assert a + [d] + b == a + [d] && a + b == a && (a + [d])[..|a|] == a;
    } else {
      var n := |b| - 1;
      assert (a + [d] + b)[..|a + [d] + b| - 1] == a + [d] + b[..n];
      assert (a + b)[..|a + b| - 1] == a + b[..n];
      IdsSkip(a, d, b[..n]);
    }
  }

  function IdLine(id: string): string { "id: " + id }

  lemma IdLineIs(id: string)
    requires CanonicalId(id)
    ensures Cut(IdLine(id)) == Some(("id", " " + id)) && Trim(" " + id) == id && OneLine(IdLine(id))
    ensures HasPrefix(IdLine(id), "id:") && IdLine(id) != "---" && '\r' !in IdLine(id)
  {
    hide Cut, Trim, CanonicalId;
    CanonicalChars(id);
    CutField("id", " " + id);
    assert IdLine(id) == "id" + ":" + (" " + id);
    assert IdLine(id)[..3] == "id:";
    TrimSpaced(id);
  }

  lemma CanonicalChars(id: string)
    requires CanonicalId(id)
    ensures id != [] && forall i :: 0 <= i < |id| ==> id[i] == '-' || IsHex(id[i])
  {
  }

  lemma TrimSpaced(id: string)
    requires id != [] && forall i :: 0 <= i < |id| ==> id[i] == '-' || IsHex(id[i])
    ensures Trim(" " + id) == id
  {
    assert (" " + id)[1..] == id && !IsSpace(id[0]) && !IsSpace(id[|id| - 1]);
    assert TrimLeft(id) == id;
    assert TrimLeft(" " + id) == id;
  }

  /** Where no line names an id, one put in front is found. */
  lemma {:induction false} IdsFirst(id: string, lines: seq<string>)
    requires CanonicalId(id) && IdsIn(lines) == Id("")
    ensures IdsIn([IdLine(id)] + lines) == Id(id)
    decreases |lines|
  {
    hide IdsIn, IdLine, Cut, Trim, CanonicalId;
    IdLineIs(id);
    var all := [IdLine(id)] + lines;
    if lines == [] {
      assert all == [] + [IdLine(id)];
      NoIdsIn(lines);
      assert lines[..0] == [];
      BareName();
      IdsBehind([], IdLine(id));
    } else {
      var n := |lines| - 1;
      assert lines == lines[..n] + [lines[n]] && all == ([IdLine(id)] + lines[..n]) + [lines[n]];
      IdsBehind(lines[..n], lines[n]);
      NothingNamed(lines[..n], lines[n]);
      IdsFirst(id, lines[..n]);
      IdsBehind([IdLine(id)] + lines[..n], lines[n]);
    }
  }

  lemma BareName()
    ensures Trim("id") == "id"
  {
    assert TrimLeft("id") == "id";
  }

  lemma NoEmptyId(id: string)
    requires CanonicalId(id)
    ensures id != ""
  {
  }

  /** One line more at the end. */
  lemma IdsBehind(front: seq<string>, line: string)
    ensures IdsIn(front + [line])
         == if !IdsIn(front).Id? || !IdNamed(line) then IdsIn(front)
            else if Cut(line).value.0 != "id" then Nested
            else if IdsIn(front).id != "" || !CanonicalId(Trim(Cut(line).value.1)) then NotOne
            else Id(Trim(Cut(line).value.1))
  {
    hide Cut, Trim, CanonicalId;
    assert (front + [line])[..|front|] == front;
  }

  /** Where no id is read, the last line names none. */
  lemma NothingNamed(front: seq<string>, line: string)
    requires IdsIn(front + [line]) == Id("")
    ensures IdsIn(front) == Id("") && !IdNamed(line)
  {
    hide Cut, Trim, CanonicalId, IdsIn;
    IdsBehind(front, line);
    if IdNamed(line) && CanonicalId(Trim(Cut(line).value.1)) { NoEmptyId(Trim(Cut(line).value.1)); }
  }

  lemma {:induction false} EndShift(pre: seq<string>, lines: seq<string>, from: nat, loose: bool)
    ensures EndFrom(pre + lines, |pre| + from, loose)
         == match EndFrom(lines, from, loose) case None => None case Some(e) => Some(|pre| + e)
    decreases |lines| - from
  {
    if from < |lines| {
      assert (pre + lines)[|pre| + from] == lines[from];
      EndShift(pre, lines, from + 1, loose);
    }
  }

  lemma OneFurther(lines: seq<string>, line: string, e: nat)
    requires 1 <= e <= |lines|
    ensures ([lines[0], line] + lines[1..])[1..e + 1] == [line] + lines[1..e]
  {
    var more := [lines[0], line] + lines[1..];
    assert more[1..] == [line] + lines[1..] && lines[1..][..e - 1] == lines[1..e];
  }

  /** On lines: the id put after the opening rule is the one read back. */
  lemma InsertedIdIsRead(lines: seq<string>, id: string)
    requires CanonicalId(id) && FindingIDOf(lines) == Id("")
    ensures FindingIDOf([lines[0], IdLine(id)] + lines[1..]) == Id(id)
  {
    hide EndFrom, IdLine, IdsIn, CanonicalId;
    var rest := lines[1..];
    var more := ["---", IdLine(id)] + rest;
    assert lines == ["---"] + rest && more == [lines[0], IdLine(id)] + lines[1..];
    IdLineIs(id);
    EndIs(lines, 2, false);
    var e := FrontEnd(lines, false).value;
    EndMoves(lines, IdLine(id));
    if rest[0] == "---" {
      NoIdsIn(rest);
      assert rest[..0] == [] && more[1..2] == [IdLine(id)] + [];
      IdsFirst(id, []);
    } else {
      OneFurther(lines, IdLine(id), e);
      IdsFirst(id, lines[1..e]);
    }
  }

  /** Behind one more line the closing rule is where it was, or is the line after the new one. */
  lemma EndMoves(lines: seq<string>, line: string)
    requires |lines| >= 2 && lines[0] == "---" && line != "---"
    ensures var more := [lines[0], line] + lines[1..];
            FrontEnd(more, false)
            == if lines[1] == "---" then Some(2)
               else match FrontEnd(lines, false) case None => None case Some(e) => Some(e + 1)
  {
    var rest := lines[1..];
    var more := ["---", line] + rest;
    assert lines == ["---"] + rest && more == [lines[0], line] + lines[1..];
    EndShift(["---"], rest, 1, false);
    EndShift(["---", line], rest, 0, false);
  }

  lemma InsertedIdIsNotHashed(lines: seq<string>, id: string)
    requires CanonicalId(id) && HasFront(lines)
    ensures HashedText([lines[0], IdLine(id)] + lines[1..]) == HashedText(lines)
  {
    IdLineIs(id);
    var more := [lines[0], IdLine(id)] + lines[1..];
    assert more[1..] == [IdLine(id)] + lines[1..];
    assert more[1..][1..] == lines[1..];
  }

  lemma {:induction false} LineEndIs(raw: string)
    ensures OneLine(raw[..if LineEnd(raw) > 0 then LineEnd(raw) - 1 else 0])
    ensures '\n' in raw ==> LineEnd(raw) > 0 && raw[LineEnd(raw) - 1] == '\n'
  {
    if raw != [] && raw[0] != '\n' {
      LineEndIs(raw[1..]);
      var n := LineEnd(raw);
      assert raw == [raw[0]] + raw[1..];
      assert n > 1 ==> raw[..n - 1] == [raw[0]] + raw[1..][..n - 2];
    }
  }

  lemma WithoutStep(s: string)
    requires s != []
    ensures |s| >= 2 && s[0] == '\r' && s[1] == '\n' ==> WithoutReturns(s) == "\n" + WithoutReturns(s[2..])
    ensures !(|s| >= 2 && s[0] == '\r' && s[1] == '\n') ==> WithoutReturns(s) == [s[0]] + WithoutReturns(s[1..])
  {
  }

  lemma Regroup(a: string, b: string, c: string)
    ensures (a + b) + c == a + (b + c)
  {
  }

  lemma DropFrom(a: string, b: string, n: nat)
    requires n <= |a|
    ensures (a + b)[n..] == a[n..] + b && (n > 0 ==> (a + b)[0] == a[0]) && (n > 1 ==> (a + b)[1] == a[1])
  {
  }

  /** Line ends are rewritten one by one. */
  lemma {:induction false} WithoutSplits(a: string, b: string)
    requires a != [] ==> a[|a| - 1] == '\n'
    ensures WithoutReturns(a + b) == WithoutReturns(a) + WithoutReturns(b)
    decreases |a|
  {
    hide WithoutReturns;
    if a == [] {
      assert a + b == b;
      assert WithoutReturns([]) == [] by { WithoutNothing(); }
      assert [] + WithoutReturns(b) == WithoutReturns(b);
    } else {
      var n := if |a| >= 2 && a[0] == '\r' && a[1] == '\n' then 2 else 1;
      WithoutStep(a);
      WithoutStep(a + b);
      DropFrom(a, b, n);
      WithoutSplits(a[n..], b);
      Regroup(if n == 2 then "\n" else [a[0]], WithoutReturns(a[n..]), WithoutReturns(b));
      StepOver(a, b);
    }
  }

  lemma WithoutNothing()
    ensures WithoutReturns([]) == []
  {
  }

  /** The first line end of a text that ends in one lies within it. */
  lemma StepOver(a: string, b: string)
    requires a != [] && a[|a| - 1] == '\n'
    ensures (|a + b| >= 2 && (a + b)[0] == '\r' && (a + b)[1] == '\n') <==> (|a| >= 2 && a[0] == '\r' && a[1] == '\n')
  {
  }

  /** A line's text stays, whatever its line end. */
  lemma {:induction false} WithoutLine(line: string, crlf: bool)
    requires OneLine(line) && (crlf || !EndsInReturn(line))
    ensures WithoutReturns(line + (if crlf then "\r\n" else "\n")) == line + "\n"
  {
    var end := if crlf then "\r\n" else "\n";
    if line == [] {
      assert line + end == end;
      assert end[|end|..] == [];
      if !crlf { assert end[1..] == []; } else { assert end[2..] == []; }
    } else {
      assert (line + end)[1..] == line[1..] + end;
      assert line[0] != '\n' && (line[0] == '\r' ==> (line + end)[1] != '\n') by {
        if |line| > 1 { assert (line + end)[1] == line[1]; }
      }
      WithoutLine(line[1..], crlf);
      assert line == [line[0]] + line[1..];
    }
  }

  predicate EndsInReturn(line: string) { line != [] && line[|line| - 1] == '\r' }

  /** A text opened at its first line end. */
  lemma FirstLine(text: string) returns (line: string, crlf: bool, rest: string)
    requires '\n' in text
    ensures text == line + (if crlf then "\r\n" else "\n") + rest && OneLine(line) && (crlf || !EndsInReturn(line))
    ensures LineEnd(text) == |line| + (if crlf then 2 else 1) && rest == text[LineEnd(text)..]
    ensures Split(WithoutReturns(text)) == [line] + Split(WithoutReturns(rest))
  {
    LineEndIs(text);
    var n := LineEnd(text);
    rest := text[n..];
    crlf := n >= 2 && text[n - 2] == '\r';
    line := text[..if crlf then n - 2 else n - 1];
    assert forall i :: 0 <= i < |line| ==> line[i] == text[..n - 1][i];
    var end := if crlf then "\r\n" else "\n";
    assert text[..n] == line + end;
    assert text == text[..n] + rest;
    WithoutSplits(text[..n], rest);
    WithoutLine(line, crlf);
    SplitLine(line, WithoutReturns(rest));
  }

  function Bare(raw: string): string { if raw != [] && raw[0] == MARK then raw[1..] else raw }

  lemma FrontHasNewline(raw: string)
    requires HasFront(Split(Normal(raw)))
    ensures '\n' in Bare(raw)
  {
    if '\n' !in Bare(raw) {
      WithoutNone(Bare(raw));
      SplitLast(Normal(raw));
    }
  }

  lemma {:induction false} WithoutNone(s: string)
    requires '\n' !in s
    ensures WithoutReturns(s) == s
  {
    if s != [] {
      WithoutNone(s[1..]);
      assert s == [s[0]] + s[1..];
    }
  }

  function LineBreak(crlf: bool): string { if crlf then "\r\n" else "\n" }

  lemma LineAhead(line: string, crlf: bool, rest: string)
    requires OneLine(line) && (crlf || !EndsInReturn(line))
    ensures Split(WithoutReturns(line + LineBreak(crlf) + rest)) == [line] + Split(WithoutReturns(rest))
  {
    hide WithoutReturns, Split, EndsInReturn, OneLine;
    var whole := line + LineBreak(crlf);
    assert whole[|whole| - 1] == '\n';
    WithoutLine(line, crlf);
    WithoutSplits(whole, rest);
    SplitLine(line, WithoutReturns(rest));
  }

  /** Two lines and the rest of a text, once the line ends are rewritten. */
  lemma TwoLines(line: string, more: string, crlf: bool, rest: string)
    requires OneLine(line) && OneLine(more) && (crlf || (!EndsInReturn(line) && !EndsInReturn(more)))
    ensures Split(WithoutReturns(line + LineBreak(crlf) + (more + LineBreak(crlf) + rest)))
         == [line, more] + Split(WithoutReturns(rest))
  {
    hide WithoutReturns, Split, EndsInReturn, OneLine, LineBreak;
    LineAhead(more, crlf, rest);
    LineAhead(line, crlf, more + LineBreak(crlf) + rest);
    assert [line] + ([more] + Split(WithoutReturns(rest))) == [line, more] + Split(WithoutReturns(rest));
  }

  /** What stands before the last character of a first line's end. */
  lemma BeforeEnd(raw: string, mark: string, line: string, crlf: bool, rest: string)
    requires raw == mark + (line + LineBreak(crlf) + rest) && (mark == "" || mark == [MARK]) && (crlf || !EndsInReturn(line))
    ensures var start := |mark| + |line| + |LineBreak(crlf)|;
            start <= |raw| && (start >= 2 ==> (raw[start - 2] == '\r' <==> crlf))
  {
    var start := |mark| + |line| + |LineBreak(crlf)|;
    if crlf {
      assert raw[start - 2] == LineBreak(crlf)[0];
    } else if line != [] {
      assert raw[start - 2] == line[|line| - 1];
    } else if mark != [] {
      assert raw[start - 2] == mark[0];
    }
  }

  lemma EditedText(raw: string, id: string, mark: string, line: string, crlf: bool, rest: string)
    requires CanonicalId(id) && FindingID(raw) == Id("") && (mark == "" || mark == [MARK])
    requires raw == mark + (line + LineBreak(crlf) + rest) && OneLine(line) && (crlf || !EndsInReturn(line))
    requires LineEnd(raw) == |mark| + |line| + |LineBreak(crlf)|
    ensures WithFindingID(raw, id) == Text(mark + (line + LineBreak(crlf) + (IdLine(id) + LineBreak(crlf) + rest)))
  {
    hide FindingID, CanonicalId, OneLine, WithFindingID, LineEnd;
    var end := LineBreak(crlf);
    var head := mark + line + end;
    HeadApart(raw, mark, line, end, rest);
    BeforeEnd(raw, mark, line, crlf, rest);
    EditIs(raw, id, head, rest, crlf);
    Inserted(mark, line, end, "id: ", id, rest);
  }

  lemma HeadApart(raw: string, mark: string, line: string, end: string, rest: string)
    requires raw == mark + (line + end + rest)
    ensures raw == mark + line + end + rest && raw[..|mark| + |line| + |end|] == mark + line + end
    ensures raw[|mark| + |line| + |end|..] == rest
  {
    Regroup(mark, line + end, rest);
    Regroup(mark, line, end);
    assert raw == (mark + line + end) + rest;
  }

  lemma EditIs(raw: string, id: string, head: string, rest: string, crlf: bool)
    requires CanonicalId(id) && FindingID(raw) == Id("") && raw == head + rest && LineEnd(raw) == |head|
    requires head != "" && head[|head| - 1] == '\n' && (|head| >= 2 ==> (head[|head| - 2] == '\r' <==> crlf)) && (crlf ==> |head| >= 2)
    ensures WithFindingID(raw, id) == Text(head + "id: " + id + LineBreak(crlf) + rest)
  {
    hide FindingID, CanonicalId, LineEnd;
    assert raw[..|head|] == head && raw[|head|..] == rest;
  }

  lemma Inserted(mark: string, line: string, end: string, name: string, id: string, rest: string)
    ensures mark + line + end + name + id + end + rest == mark + (line + end + (name + id + end + rest))
  {
    var more := name + id + end + rest;
    assert mark + line + end + name + id + end + rest == mark + line + end + more;
    assert mark + line + end + more == mark + (line + end + more);
  }

  /** Writing an identity puts one line after the opening rule, in the text's own style. */
  lemma EditedLines(raw: string, id: string)
    requires CanonicalId(id) && FindingID(raw) == Id("")
    ensures WithFindingID(raw, id).Text?
    ensures var lines := Split(Normal(raw));
            HasFront(lines) && Split(Normal(WithFindingID(raw, id).text)) == [lines[0], IdLine(id)] + lines[1..]
  {
    hide FindingIDOf, CanonicalId, LineEnd, WithoutReturns, Split, IdLine;
    ReadNeedsFront(Split(Normal(raw)));
    FrontHasNewline(raw);
    IdLineIs(id);
    var bare := Bare(raw);
    var mark := if bare == raw then "" else [MARK];
    assert raw == mark + bare;
    var line, crlf, rest := FirstLine(bare);
    MarkedEnd(bare);
    EditedText(raw, id, mark, line, crlf, rest);
    var inner := IdLine(id) + LineBreak(crlf) + rest;
    BareOut(mark, line + LineBreak(crlf) + inner, line);
    TwoLines(line, IdLine(id), crlf, rest);
  }

  lemma ReadNeedsFront(lines: seq<string>)
    requires FindingIDOf(lines).Id?
    ensures HasFront(lines)
  {
  }

  lemma MarkedEnd(bare: string)
    ensures LineEnd([MARK] + bare) == 1 + LineEnd(bare)
  {
    assert ([MARK] + bare)[1..] == bare;
  }

  lemma BareOut(mark: string, text: string, line: string)
    requires mark == "" || mark == [MARK]
    requires mark == "" ==> text == [] || text[0] != MARK
    ensures Bare(mark + text) == text
  {
    assert mark == [MARK] ==> (mark + text)[1..] == text;
    assert mark == "" ==> mark + text == text;
  }

  /** An identity written is the identity read. */
  lemma WrittenIdIsRead(raw: string, id: string)
    requires CanonicalId(id) && FindingID(raw) == Id("")
    ensures WithFindingID(raw, id).Text? && FindingID(WithFindingID(raw, id).text) == Id(id)
  {
    EditedLines(raw, id);
    InsertedIdIsRead(Split(Normal(raw)), id);
  }

  /** And writing it does not change what is hashed. */
  lemma WrittenIdIsNotHashed(raw: string, id: string)
    requires CanonicalId(id) && FindingID(raw) == Id("")
    ensures WithFindingID(raw, id).Text? && FingerprintText(WithFindingID(raw, id).text) == FingerprintText(raw)
  {
    EditedLines(raw, id);
    InsertedIdIsNotHashed(Split(Normal(raw)), id);
  }

  /** A second identity is never written over the first. */
  lemma IdIsNeverReplaced(raw: string, id: string, other: string)
    requires CanonicalId(id) && FindingID(raw) == Id("") && other != id
    ensures WithFindingID(raw, id).Text? && WithFindingID(WithFindingID(raw, id).text, other) == Failed
    ensures WithFindingID(WithFindingID(raw, id).text, id) == WithFindingID(raw, id)
  {
    WrittenIdIsRead(raw, id);
  }
}

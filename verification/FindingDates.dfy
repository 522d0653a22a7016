/** The dates of a finding: reading them, writing them, and what writing them leaves alone. */
module FindingDates {
  import opened TextLines
  import opened KnowledgeProjection
  import opened CopyIdentity
  import opened FindingIdentity

  /** A date's canonical form, if the text is a date. */
  type Parse = string -> Option<string>

  const CREATED := "created_at"
  const UPDATED := "knowledge_updated_at"

  datatype Dates = Dates(created: string, updated: string) | NotDates

  predicate DateNamed(line: string) {
    Cut(line).Some? && (Trim(Cut(line).value.0) == CREATED || Trim(Cut(line).value.0) == UPDATED)
  }

  predicate DatePrefixed(line: string) { HasPrefix(line, "created_at:") || HasPrefix(line, "knowledge_updated_at:") }

  /** A line's date, unless it is nested, repeated or unreadable. */
  function DateStep(before: Dates, line: string, parse: Parse): Dates {
    if before == NotDates || !DateNamed(line) then before
    else
      var (key, value) := Cut(line).value;
      var had := if Trim(key) == CREATED then before.created else before.updated;
      if key != Trim(key) || had != "" || parse(Trim(value)).None? then NotDates
      else if key == CREATED then before.(created := parse(Trim(value)).value)
      else before.(updated := parse(Trim(value)).value)
  }

  function DatesIn(lines: seq<string>, parse: Parse): Dates {
    if lines == [] then Dates("", "") else DateStep(DatesIn(lines[..|lines| - 1], parse), lines[|lines| - 1], parse)
  }

  function DatesOf(lines: seq<string>, parse: Parse): Dates {
    if !FindingIDOf(lines).Id? then NotDates
    else
      match FrontEnd(lines, true)
      case None => NotDates
      case Some(e) => if 1 <= e <= |lines| then DatesIn(lines[1..e], parse) else NotDates
  }

  function TimestampFields(raw: string, parse: Parse): Dates { DatesOf(Split(Normal(raw)), parse) }

  method ReadTimestamps(raw: string, parse: Parse) returns (dates: Dates)
    ensures dates == TimestampFields(raw, parse)
  {
    var lines := Split(Normal(raw));
    var id := FindID(raw);
    if !id.Id? { return NotDates; }
    EndIs(lines, 2, true);
    var end := FrontEnd(lines, true);
    if end.None? { return NotDates; }
    dates := ScanDates(lines[1..end.value], parse);
  }

  method ScanDates(front: seq<string>, parse: Parse) returns (dates: Dates)
    ensures dates == DatesIn(front, parse)
  {
    dates := Dates("", "");
    assert front[..0] == [];
    hide DateStep;
    for i := 0 to |front|
      invariant dates.Dates? && dates == DatesIn(front[..i], parse)
    {
      assert front[..i + 1][..i] == front[..i];
      var after := AddDate(dates, front[i], parse);
      if after == NotDates {
        BadStays(front, i + 1, parse);
        return NotDates;
      }
      dates := after;
    }
    assert front[..|front|] == front;
  }

  method AddDate(dates: Dates, line: string, parse: Parse) returns (after: Dates)
    requires dates.Dates?
    ensures after == DateStep(dates, line, parse)
  {
    hide Trim;
    var cut := Cut(line);
    if cut.None? { return dates; }
    var name := Trim(cut.value.0);
    if name != CREATED && name != UPDATED { return dates; }
    var had := if name == CREATED then dates.created else dates.updated;
    if cut.value.0 != name || had != "" { return NotDates; }
    var parsed := parse(Trim(cut.value.1));
    if parsed.None? { return NotDates; }
    after := if name == CREATED then dates.(created := parsed.value) else dates.(updated := parsed.value);
  }

  lemma {:induction false} BadStays(lines: seq<string>, n: nat, parse: Parse)
    requires n <= |lines| && DatesIn(lines[..n], parse) == NotDates
    ensures DatesIn(lines, parse) == NotDates
    decreases |lines|
  {
    if n < |lines| {
      assert lines[..|lines| - 1][..n] == lines[..n];
      BadStays(lines[..|lines| - 1], n, parse);
    } else {
      assert lines[..n] == lines;
    }
  }

  /** The frontmatter's own dates go, up to the closing rule. */
  function WithoutDates(lines: seq<string>, front: bool): seq<string> {
    if lines == [] then []
    else if front && lines[0] == "---" then lines
    else if front && DatePrefixed(lines[0]) then WithoutDates(lines[1..], front)
    else [lines[0]] + WithoutDates(lines[1..], front)
  }

  function CreatedLine(created: string): string { "created_at: " + created }

  function UpdatedLine(updated: string): string { "knowledge_updated_at: " + updated }

  function DatedLines(lines: seq<string>, created: string, updated: string): seq<string>
    requires lines != []
  {
    [lines[0], CreatedLine(created), UpdatedLine(updated)] + WithoutDates(lines[1..], true)
  }

  // ---------- One newline style ----------

  function JoinWith(lines: seq<string>, crlf: bool): string {
    if lines == [] then ""
    else if |lines| == 1 then lines[0]
    else lines[0] + LineBreak(crlf) + JoinWith(lines[1..], crlf)
  }

  /** Splitting at the text's own line end. */
  function SplitWith(text: string, crlf: bool): (lines: seq<string>)
    ensures lines != []
  {
    if HasPrefix(text, LineBreak(crlf)) then [""] + SplitWith(text[|LineBreak(crlf)|..], crlf)
    else if text == [] then [""]
    else
      var rest := SplitWith(text[1..], crlf);
      Longer(text[0], rest)
  }

  /** A newline is preceded by a return in one style, and never in the other. */
  ghost predicate OneStyle(text: string, crlf: bool) {
    (text != [] && text[0] == '\n' ==> !crlf)
    && forall i :: 0 < i < |text| && text[i] == '\n' ==> crlf == (text[i - 1] == '\r')
  }

  predicate UsesReturns(text: string) { exists i :: 0 <= i < |text| - 1 && text[i] == '\r' && text[i + 1] == '\n' }

  function WithTimestamps(raw: string, created: string, updated: string, parse: Parse): Edited {
    if TimestampFields(raw, parse) == NotDates then Failed
    else
      var crlf := UsesReturns(raw);
      Text(JoinWith(DatedLines(SplitWith(raw, crlf), created, updated), crlf))
  }

  method WriteTimestamps(raw: string, created: string, updated: string, parse: Parse) returns (r: Edited)
    ensures r == WithTimestamps(raw, created, updated, parse)
  {
    var dates := ReadTimestamps(raw, parse);
    if dates == NotDates { return Failed; }
    var crlf := UsesReturns(raw);
    var lines := SplitWith(raw, crlf);
    var out := StampLines(lines, created, updated);
    r := Text(JoinWith(out, crlf));
  }

  method StampLines(lines: seq<string>, created: string, updated: string) returns (out: seq<string>)
    requires lines != []
    ensures out == DatedLines(lines, created, updated)
  {
    out := [lines[0], "created_at: " + created, "knowledge_updated_at: " + updated];
    var front := true;
    var i := 1;
    ghost var all := DatedLines(lines, created, updated);
    hide HasPrefix;
    while i < |lines|
      invariant 1 <= i <= |lines| && out + WithoutDates(lines[i..], front) == all
    {
      var line := lines[i];
      ghost var rest := lines[i + 1..];
      assert lines[i..][1..] == rest;
      AfterFront(rest);
      if front && line == "---" { front := false; }
      if !(front && DatePrefixed(line)) {
        assert out + ([line] + WithoutDates(rest, front)) == out + [line] + WithoutDates(rest, front);
        assert line == "---" ==> lines[i..] == [line] + rest;
        out := out + [line];
      }
      i := i + 1;
    }
    assert lines[i..] == [];
    assert out == all;
  }

  lemma {:induction false} AfterFront(lines: seq<string>)
    ensures WithoutDates(lines, false) == lines
  {
    if lines != [] { AfterFront(lines[1..]); }
  }

  // ---------- Written dates are read, and change nothing else ----------

  /** A date in canonical form, fit for a line of its own. */
  ghost predicate Canonical(date: string, parse: Parse) {
    date != "" && parse(date) == Some(date) && Trim(date) == date && OneLine(date) && '\r' !in date
  }

  lemma FieldLine(name: string, value: string)
    requires name == CREATED || name == UPDATED
    requires value != "" && Trim(value) == value
    ensures Cut(name + ": " + value) == Some((name, " " + value)) && Trim(" " + value) == value && Trim(name) == name
  {
    CutField(name, " " + value);
    assert name + ": " + value == name + ":" + (" " + value);
    assert (" " + value)[1..] == value;
    TrimLeftIs(value);
    TrimRightIs(TrimLeft(value));
    assert TrimLeft(" " + value) == TrimLeft(value);
    NamesAreTrim();
  }

  lemma NamesAreTrim()
    ensures Trim(CREATED) == CREATED && Trim(UPDATED) == UPDATED
  {
    assert !IsSpace(CREATED[0]) && !IsSpace(CREATED[|CREATED| - 1]);
    assert !IsSpace(UPDATED[0]) && !IsSpace(UPDATED[|UPDATED| - 1]);
  }

  lemma LinesStart(created: string, updated: string)
    ensures var one, two := CreatedLine(created), UpdatedLine(updated);
            one == CREATED + ": " + created && two == UPDATED + ": " + updated
            && !HasPrefix(one, "---") && !HasPrefix(two, "---") && Unhashed(one) && Unhashed(two)
  {
    var one, two := CreatedLine(created), UpdatedLine(updated);
    assert one[..11] == "created_at:" && two[..21] == "knowledge_updated_at:";
    assert one[0] == 'c' && two[0] == 'k';
    assert one == CREATED + ": " + created && two == UPDATED + ": " + updated;
  }

  lemma NewLines(created: string, updated: string, parse: Parse)
    requires Canonical(created, parse) && Canonical(updated, parse)
    ensures DatesIn([CreatedLine(created), UpdatedLine(updated)], parse) == Dates(created, updated)
    ensures !IdNamed(CreatedLine(created)) && !IdNamed(UpdatedLine(updated))
    ensures !HasPrefix(CreatedLine(created), "---") && !HasPrefix(UpdatedLine(updated), "---")
    ensures Unhashed(CreatedLine(created)) && Unhashed(UpdatedLine(updated))
  {
    hide Trim, Cut, CreatedLine, UpdatedLine;
    var one, two := CreatedLine(created), UpdatedLine(updated);
    LinesStart(created, updated);
    FieldLine(CREATED, created);
    FieldLine(UPDATED, updated);
    NewDates(one, two, created, updated, parse);
  }

  lemma NewDates(one: string, two: string, created: string, updated: string, parse: Parse)
    requires Canonical(created, parse) && Canonical(updated, parse)
    requires Cut(one) == Some((CREATED, " " + created)) && Cut(two) == Some((UPDATED, " " + updated))
    requires Trim(" " + created) == created && Trim(" " + updated) == updated && Trim(CREATED) == CREATED && Trim(UPDATED) == UPDATED
    ensures DatesIn([one, two], parse) == Dates(created, updated)
  {
    hide Trim, Cut;
    var none: seq<string>, first, both := [], [one], [one, two];
    assert both[..1] == first && first[..0] == none;
    assert DatesIn(first, parse) == Dates(created, "");
  }

  /** Lines that name no date add none. */
  lemma {:induction false} DatesStay(pre: seq<string>, more: seq<string>, parse: Parse)
    requires forall i :: 0 <= i < |more| ==> !DateNamed(more[i])
    ensures DatesIn(pre + more, parse) == DatesIn(pre, parse)
    decreases |more|
  {
    if more == [] {
      assert pre + more == pre;
    } else {
      assert (pre + more)[..|pre + more| - 1] == pre + more[..|more| - 1];
      DatesStay(pre, more[..|more| - 1], parse);
    }
  }

  /** Where the dates were readable, every line naming one begins with it. */
  lemma {:induction false} NamedArePrefixed(lines: seq<string>, parse: Parse)
    requires DatesIn(lines, parse) != NotDates
    ensures forall i :: 0 <= i < |lines| && DateNamed(lines[i]) ==> DatePrefixed(lines[i])
    decreases |lines|
  {
    if lines != [] {
      var n := |lines| - 1;
      NamedArePrefixed(lines[..n], parse);
      assert forall i :: 0 <= i < n ==> lines[..n][i] == lines[i];
      if DateNamed(lines[n]) {
        CutJoins(lines[n]);
        var (key, value) := Cut(lines[n]).value;
        assert key == CREATED || key == UPDATED;
        assert lines[n][..|key| + 1] == key + ":";
      }
    }
  }

  /** The lines before the first that begins like a rule. */
  function TakeFront(lines: seq<string>): seq<string> {
    if lines == [] || HasPrefix(lines[0], "---") then [] else [lines[0]] + TakeFront(lines[1..])
  }

  lemma {:induction false} TakeFrontIs(lines: seq<string>, from: nat)
    requires from <= |lines|
    ensures EndFrom(lines, from, true).Some? ==>
              from <= EndFrom(lines, from, true).value <= |lines|
              && TakeFront(lines[from..]) == lines[from..EndFrom(lines, from, true).value]
    decreases |lines| - from
  {
    if from < |lines| && !HasPrefix(lines[from], "---") {
      TakeFrontIs(lines, from + 1);
      assert lines[from..][1..] == lines[from + 1..];
      assert lines[from] != "---" by { assert "---"[..3] == "---"; }
    }
  }

  ghost predicate NoDates(lines: seq<string>) { forall i :: 0 <= i < |lines| ==> !DateNamed(lines[i]) }

  ghost predicate OnlyPrefixed(lines: seq<string>) { forall i :: 0 <= i < |lines| && DateNamed(lines[i]) ==> DatePrefixed(lines[i]) }

  lemma RuleIsNoDate(line: string)
    requires HasPrefix(line, "---")
    ensures !DatePrefixed(line)
  {
    PrefixFirst(line, "---");
    PrefixFirst(line, "created_at:");
    PrefixFirst(line, "knowledge_updated_at:");
    hide HasPrefix;
  }

  lemma PrefixFirst(line: string, prefix: string)
    requires prefix != []
    ensures HasPrefix(line, prefix) ==> line != [] && line[0] == prefix[0]
  {
    assert |prefix| <= |line| ==> line[..|prefix|][0] == line[0];
  }

  lemma NoDatesMore(line: string, lines: seq<string>)
    requires !DateNamed(line) && NoDates(lines)
    ensures NoDates([line] + lines)
  {
    hide DateNamed;
    forall i | 0 <= i < |[line] + lines| ensures !DateNamed(([line] + lines)[i]) {
      if i > 0 { assert ([line] + lines)[i] == lines[i - 1]; }
    }
  }

  lemma OnlyPrefixedRest(line: string, lines: seq<string>)
    requires OnlyPrefixed([line] + lines)
    ensures OnlyPrefixed(lines) && (DateNamed(line) ==> DatePrefixed(line))
  {
    hide DateNamed, DatePrefixed;
    var all := [line] + lines;
    assert all[0] == line && forall i :: 0 <= i < |lines| ==> all[i + 1] == lines[i];
  }

  /** Up to a line that begins like a rule, no date is left. */
  lemma {:induction false} NoDatesLeft(lines: seq<string>)
    requires OnlyPrefixed(TakeFront(lines))
    ensures NoDates(TakeFront(WithoutDates(lines, true)))
  {
    if lines != [] {
      if HasPrefix(lines[0], "---") {
        RuleIsNoDate(lines[0]);
      } else {
        assert "---"[..3] == "---" && lines[0] != "---";
        var more := WithoutDates(lines[1..], true);
        OnlyPrefixedRest(lines[0], TakeFront(lines[1..]));
        NoDatesLeft(lines[1..]);
        hide DateNamed, DatePrefixed, NoDates, OnlyPrefixed;
        if !DatePrefixed(lines[0]) {
          assert ([lines[0]] + more)[1..] == more;
          NoDatesMore(lines[0], TakeFront(more));
        }
      }
    }
  }

  lemma {:induction false} WithoutDatesKeepsEnd(lines: seq<string>, e: nat)
    requires e < |lines| && lines[e] == "---" && forall j :: 0 <= j < e ==> lines[j] != "---"
    ensures var k := WithoutDates(lines, true);
            var kept := WithoutDates(lines[..e], true);
            k == kept + lines[e..] && |kept| <= e && forall j :: 0 <= j < |kept| ==> kept[j] != "---"
  {
    if e == 0 {
      assert lines[..0] == [] && lines[0..] == lines;
    } else {
      WithoutDatesKeepsEnd(lines[1..], e - 1);
      assert lines[1..][e - 1..] == lines[e..] && lines[1..][..e - 1] == lines[..e][1..];
    }
  }

  /** Dates come out of the frontmatter without touching the identity in it. */
  lemma {:induction false} IdsWithoutDates(pre: seq<string>, lines: seq<string>)
    requires forall j :: 0 <= j < |lines| ==> lines[j] != "---"
    ensures IdsIn(pre + WithoutDates(lines, true)) == IdsIn(pre + lines)
    decreases |lines|
  {
    if lines != [] {
      var rest := lines[1..];
      assert lines == [lines[0]] + rest;
      if DatePrefixed(lines[0]) {
        PrefixedIsNoId(lines[0]);
        IdsSkip(pre, lines[0], rest);
        assert pre + [lines[0]] + rest == pre + lines;
        IdsWithoutDates(pre, rest);
      } else {
        IdsWithoutDates(pre + [lines[0]], rest);
        assert pre + [lines[0]] + WithoutDates(rest, true) == pre + WithoutDates(lines, true);
        assert pre + [lines[0]] + rest == pre + lines;
      }
    }
  }

  lemma PrefixedIsNoId(line: string)
    requires DatePrefixed(line)
    ensures !IdNamed(line)
  {
    var name := if HasPrefix(line, "created_at:") then CREATED else UPDATED;
    assert line == name + ":" + line[|name| + 1..];
    CutField(name, line[|name| + 1..]);
    NamesAreTrim();
  }

  lemma {:induction false} EndAt(lines: seq<string>, from: nat, e: nat, loose: bool)
    requires from <= e < |lines| && lines[e] == "---" && forall j :: from <= j < e ==> lines[j] != "---"
    ensures EndFrom(lines, from, loose).Some? && from <= EndFrom(lines, from, loose).value <= e
    ensures !loose ==> EndFrom(lines, from, loose) == Some(e)
    decreases |lines| - from
  {
    if from < e && !(loose && HasPrefix(lines[from], "---")) { EndAt(lines, from + 1, e, loose); }
  }

  /** Where the frontmatter after the opening rule ends, and what was in it. */
  lemma FirstRule(lines: seq<string>) returns (r: nat)
    requires FindingIDOf(lines).Id?
    ensures r < |lines[1..]| && lines[1..][r] == "---" && forall j :: 0 <= j < r ==> lines[1..][j] != "---"
    ensures IdsIn(lines[1..][..r]).Id? && IdsIn(lines[1..][..r]) == if lines[1] != "---" then FindingIDOf(lines) else Id("")
  {
    EndIs(lines, 2, false);
    var e := FrontEnd(lines, false).value;
    var rest := lines[1..];
    assert rest[e - 1] == "---" && forall j :: 1 <= j < e - 1 ==> rest[j] == lines[j + 1];
    if rest[0] == "---" {
      r := 0;
      assert rest[..0] == [];
    } else {
      r := e - 1;
      assert rest[..r] == lines[1..e];
    }
  }

  lemma TwoMoreIds(one: string, two: string, lines: seq<string>)
    requires !IdNamed(one) && !IdNamed(two)
    ensures IdsIn([one, two] + lines) == IdsIn(lines)
  {
    hide IdsIn, IdNamed;
    var none: seq<string> := [];
    IdsSkip(none, one, [two] + lines);
    assert none + [one] + ([two] + lines) == [one, two] + lines && none + ([two] + lines) == [two] + lines;
    IdsSkip(none, two, lines);
    assert none + [two] + lines == [two] + lines && none + lines == lines;
  }

  /** Three lines in front: the frontmatter ends where it ended in the rest. */
  lemma EndAfterThree(first: string, one: string, two: string, k: seq<string>, loose: bool)
    requires !HasPrefix(two, "---") && EndFrom(k, 0, loose).Some?
    ensures var more := [first, one, two] + k; var q := EndFrom(k, 0, loose).value;
            FrontEnd(more, loose) == Some(3 + q) && q < |k| && more[1..3 + q] == [one, two] + k[..q]
  {
    var more := [first, one, two] + k;
    EndShift([first, one, two], k, 0, loose);
    EndIs(k, 0, loose);
    assert more[2] == two && two != "---" by { assert "---"[..3] == "---"; }
  }

  lemma KeptFront(rest: seq<string>, r: nat, pre: seq<string>)
    requires r < |rest| && rest[r] == "---" && forall j :: 0 <= j < r ==> rest[j] != "---"
    ensures var k := WithoutDates(rest, true); var kept := |WithoutDates(rest[..r], true)|;
            kept < |k| && k[kept] == "---" && (forall j :: 0 <= j < kept ==> k[j] != "---")
            && EndFrom(k, 0, false) == Some(kept) && IdsIn(pre + k[..kept]) == IdsIn(pre + rest[..r])
  {
    WithoutDatesKeepsEnd(rest, r);
    IdsWithoutDates(pre, rest[..r]);
    hide IdsIn, WithoutDates;
    var k, front := WithoutDates(rest, true), WithoutDates(rest[..r], true);
    assert k[..|front|] == front;
    EndAt(k, 0, |front|, false);
  }

  lemma DatedIdentity(lines: seq<string>, created: string, updated: string, parse: Parse) returns (kept: nat)
    requires Canonical(created, parse) && Canonical(updated, parse) && FindingIDOf(lines).Id?
    ensures var k := WithoutDates(lines[1..], true);
            kept < |k| && k[kept] == "---" && forall j :: 0 <= j < kept ==> k[j] != "---"
    ensures FindingIDOf(DatedLines(lines, created, updated)) == if lines[1] != "---" then FindingIDOf(lines) else Id("")
  {
    NewLines(created, updated, parse);
    var rest, one, two := lines[1..], CreatedLine(created), UpdatedLine(updated);
    var r := FirstRule(lines);
    KeptFront(rest, r, [one, two]);
    TwoMoreIds(one, two, rest[..r]);
    var k := WithoutDates(rest, true);
    kept := |WithoutDates(rest[..r], true)|;
    hide IdsIn, WithoutDates, Canonical, IdNamed, Unhashed, EndFrom, FrontEnd;
    EndAfterThree(lines[0], one, two, k, false);
    assert [lines[0], one, two] + k == DatedLines(lines, created, updated);
  }

  lemma OldDatesPrefixed(lines: seq<string>, parse: Parse)
    requires DatesOf(lines, parse) != NotDates
    ensures OnlyPrefixed(TakeFront(lines[1..]))
  {
    var rest := lines[1..];
    assert lines == [lines[0]] + rest;
    EndShift([lines[0]], rest, 1, true);
    EndIs(lines, 2, true);
    var e := FrontEnd(lines, true).value;
    if !HasPrefix(rest[0], "---") {
      assert rest[0] != "---" by { assert "---"[..3] == "---"; }
      TakeFrontIs(rest, 0);
      assert rest[0..] == rest && EndFrom(rest, 0, true) == EndFrom(rest, 1, true);
      assert TakeFront(rest) == lines[1..e];
      NamedArePrefixed(lines[1..e], parse);
    }
  }

  /** On lines: the dates written are the dates read. */
  lemma DatedLinesRead(lines: seq<string>, created: string, updated: string, parse: Parse)
    requires Canonical(created, parse) && Canonical(updated, parse) && DatesOf(lines, parse) != NotDates
    ensures DatesOf(DatedLines(lines, created, updated), parse) == Dates(created, updated)
  {
    hide IdsIn, FindingIDOf, DatesIn, DateNamed, EndFrom, WithoutDates;
    var kept := DatedIdentity(lines, created, updated, parse);
    OldDatesPrefixed(lines, parse);
    NoDatesLeft(lines[1..]);
    NewLines(created, updated, parse);
    hide Canonical, CreatedLine, UpdatedLine, DatePrefixed;
    var one, two, k := CreatedLine(created), UpdatedLine(updated), WithoutDates(lines[1..], true);
    EndAt(k, 0, kept, true);
    var q := EndFrom(k, 0, true).value;
    TakeFrontIs(k, 0);
    assert k[0..] == k && TakeFront(k) == k[..q];
    DatesStay([one, two], k[..q], parse);
    EndAfterThree(lines[0], one, two, k, true);
    assert [lines[0], one, two] + k == DatedLines(lines, created, updated);
  }

  lemma {:induction false} HashedWithoutDates(lines: seq<string>)
    ensures HashedLines(WithoutDates(lines, true), true) == HashedLines(lines, true)
  {
    if lines != [] && lines[0] != "---" {
      HashedWithoutDates(lines[1..]);
      if !DatePrefixed(lines[0]) {
        assert ([lines[0]] + WithoutDates(lines[1..], true))[1..] == WithoutDates(lines[1..], true);
      }
    }
  }

  lemma DatedLinesHash(lines: seq<string>, created: string, updated: string, parse: Parse)
    requires Canonical(created, parse) && Canonical(updated, parse) && HasFront(lines)
    ensures HashedText(DatedLines(lines, created, updated)) == HashedText(lines)
  {
    NewLines(created, updated, parse);
    HashedWithoutDates(lines[1..]);
    var one, two, k := CreatedLine(created), UpdatedLine(updated), WithoutDates(lines[1..], true);
    hide WithoutDates, HasPrefix;
    var more := [lines[0], one, two] + k;
    assert more[1..] == [one] + ([two] + k) && ([one] + ([two] + k))[1..] == [two] + k && ([two] + k)[1..] == k;
    assert one != "---" && two != "---";
    assert HashedLines([one] + ([two] + k), true) == HashedLines([two] + k, true) == HashedLines(k, true);
  }

  // ---------- The same on texts of one style ----------

  /** Only the last line may end in a bare return. */
  ghost predicate Clean(lines: seq<string>) { forall j :: 0 <= j < |lines| - 1 ==> !EndsInReturn(lines[j]) }

  lemma {:induction false} StyledLines(lines: seq<string>, crlf: bool)
    requires lines != [] && AreLines(lines) && (crlf || Clean(lines))
    ensures Split(WithoutReturns(JoinWith(lines, crlf))) == lines
  {
    hide Split, WithoutReturns, OneLine, EndsInReturn;
    if |lines| == 1 {
      LoneLine(lines[0]);
      assert lines == [lines[0]];
    } else {
      StyledLines(lines[1..], crlf);
      FrontLine(lines[0], JoinWith(lines[1..], crlf), crlf);
      assert lines == [lines[0]] + lines[1..];
    }
  }

  lemma LoneLine(line: string)
    requires OneLine(line)
    ensures Split(WithoutReturns(line)) == [line]
  {
    WithoutNone(line);
    SplitLast(line);
  }

  lemma FrontLine(line: string, rest: string, crlf: bool)
    requires OneLine(line) && (crlf || !EndsInReturn(line))
    ensures Split(WithoutReturns(line + LineBreak(crlf) + rest)) == [line] + Split(WithoutReturns(rest))
  {
    hide Split, WithoutReturns, OneLine, EndsInReturn;
    WithoutLine(line, crlf);
    WithoutSplits(line + LineBreak(crlf), rest);
    SplitLine(line, WithoutReturns(rest));
  }

  lemma OneStyleTail(text: string, crlf: bool)
    requires OneStyle(text, crlf)
    ensures HasPrefix(text, LineBreak(crlf)) ==> OneStyle(text[|LineBreak(crlf)|..], crlf)
    ensures text != [] && !HasPrefix(text, LineBreak(crlf)) ==> text[0] != '\n' && OneStyle(text[1..], crlf)
  {
    var n := |LineBreak(crlf)|;
    if HasPrefix(text, LineBreak(crlf)) {
      assert text[..n][n - 1] == '\n' && text[n - 1] == '\n';
    } else if text != [] {
      assert !crlf ==> text[..1] == [text[0]];
      if crlf && |text| > 1 { assert text[..2] == [text[0], text[1]]; }
    }
  }

  /** Splitting at the style's line end gives lines that join to the text again. */
  lemma {:induction false} SplitWithIs(text: string, crlf: bool)
    requires OneStyle(text, crlf)
    ensures var lines := SplitWith(text, crlf);
            AreLines(lines) && JoinWith(lines, crlf) == text && (crlf || Clean(lines))
    decreases |text|
  {
    hide OneStyle, LineBreak;
    var end := LineBreak(crlf);
    BreakIsSome(crlf);
    OneStyleTail(text, crlf);
    if HasPrefix(text, end) {
      var rest := text[|end|..];
      SplitWithIs(rest, crlf);
      EmptyFirst(SplitWith(rest, crlf), crlf);
      assert text == end + rest;
    } else if text != [] {
      SplitWithIs(text[1..], crlf);
      LongerFirst(text, crlf, SplitWith(text[1..], crlf));
    }
  }

  lemma BreakIsSome(crlf: bool)
    ensures |LineBreak(crlf)| > 0
  {
  }

  lemma EmptyFirst(lines: seq<string>, crlf: bool)
    requires lines != [] && AreLines(lines) && (crlf || Clean(lines))
    ensures AreLines([""] + lines) && JoinWith([""] + lines, crlf) == LineBreak(crlf) + JoinWith(lines, crlf) && (crlf || Clean([""] + lines))
  {
    assert ([""] + lines)[1..] == lines;
    hide LineBreak;
  }

  function Longer(c: char, lines: seq<string>): seq<string>
    requires lines != []
  {
    [[c] + lines[0]] + lines[1..]
  }

  lemma JoinLonger(c: char, lines: seq<string>, crlf: bool)
    requires lines != []
    ensures JoinWith(Longer(c, lines), crlf) == [c] + JoinWith(lines, crlf)
  {
    assert Longer(c, lines)[1..] == lines[1..];
    if |lines| > 1 {
      var end, tail := LineBreak(crlf), JoinWith(lines[1..], crlf);
      hide LineBreak, JoinWith;
      assert ([c] + lines[0]) + end + tail == [c] + (lines[0] + end + tail);
    }
  }

  /** One more character in front of the first line. */
  lemma LongerFirst(text: string, crlf: bool, rest: seq<string>)
    requires text != [] && text[0] != '\n' && rest != [] && JoinWith(rest, crlf) == text[1..] && AreLines(rest)
    requires OneStyle(text, crlf) && (crlf || Clean(rest))
    ensures AreLines(Longer(text[0], rest)) && JoinWith(Longer(text[0], rest), crlf) == text
    ensures crlf || Clean(Longer(text[0], rest))
  {
    JoinLonger(text[0], rest, crlf);
    assert text == [text[0]] + text[1..];
    if !crlf && |rest| > 1 && rest[0] == [] {
      assert JoinWith(rest, crlf)[0] == '\n';
      assert text[1] == text[1..][0];
    }
    hide JoinWith;
    var more := Longer(text[0], rest);
    forall j | 0 <= j < |more| ensures OneLine(more[j]) && (j < |more| - 1 && !crlf ==> !EndsInReturn(more[j])) {
      if j > 0 { assert more[j] == rest[j]; }
    }
  }

  /** The lines without the byte order mark. */
  function Unmarked(lines: seq<string>): seq<string>
    requires lines != []
  {
    [Bare(lines[0])] + lines[1..]
  }

  lemma BareJoin(lines: seq<string>, crlf: bool)
    requires lines != []
    ensures Bare(JoinWith(lines, crlf)) == JoinWith(Unmarked(lines), crlf)
  {
    var text := JoinWith(lines, crlf);
    assert Unmarked(lines)[1..] == lines[1..];
    if |lines| > 1 {
      assert text[0] == (if lines[0] == [] then LineBreak(crlf)[0] else lines[0][0]);
      if lines[0] != [] && lines[0][0] == MARK {
        assert text[1..] == lines[0][1..] + LineBreak(crlf) + JoinWith(lines[1..], crlf);
      }
    }
  }

  lemma MarkIsNoReturn(line: string)
    ensures EndsInReturn(Bare(line)) ==> EndsInReturn(line)
    ensures OneLine(line) ==> OneLine(Bare(line))
  {
  }

  lemma NormalLines(lines: seq<string>, crlf: bool)
    requires lines != [] && AreLines(lines) && (crlf || Clean(lines))
    ensures Split(Normal(JoinWith(lines, crlf))) == Unmarked(lines)
  {
    BareJoin(lines, crlf);
    MarkIsNoReturn(lines[0]);
    StyledLines(Unmarked(lines), crlf);
  }

  lemma {:induction false} WithoutDatesLines(lines: seq<string>)
    ensures AreLines(lines) ==> AreLines(WithoutDates(lines, true))
    ensures Clean(lines) ==> Clean(WithoutDates(lines, true))
    ensures WithoutDates(lines, true) != [] ==> lines != []
  {
    if lines != [] && lines[0] != "---" {
      WithoutDatesLines(lines[1..]);
      assert Clean(lines) ==> Clean(lines[1..]);
      assert AreLines(lines) ==> AreLines(lines[1..]);
    }
  }

  lemma DatedAreLines(lines: seq<string>, created: string, updated: string, parse: Parse)
    requires Canonical(created, parse) && Canonical(updated, parse) && lines != [] && AreLines(lines)
    ensures AreLines(DatedLines(lines, created, updated))
    ensures |lines| > 1 && Clean(lines) ==> Clean(DatedLines(lines, created, updated))
  {
    WithoutDatesLines(lines[1..]);
    var one, two := CreatedLine(created), UpdatedLine(updated);
    assert OneLine(one) && OneLine(two);
    assert one[|one| - 1] == created[|created| - 1] && two[|two| - 1] == updated[|updated| - 1];
    assert Clean(lines) ==> Clean(lines[1..]);
  }

  /** Stamping a text of one style stamps its lines, and nothing else. */
  lemma StampedLines(raw: string, created: string, updated: string, parse: Parse)
    requires Canonical(created, parse) && Canonical(updated, parse) && TimestampFields(raw, parse) != NotDates
    requires OneStyle(raw, UsesReturns(raw))
    ensures WithTimestamps(raw, created, updated, parse).Text?
    ensures Split(Normal(WithTimestamps(raw, created, updated, parse).text)) == DatedLines(Split(Normal(raw)), created, updated)
  {
    hide DatesOf, Canonical, OneStyle, UsesReturns, SplitWith, JoinWith, WithoutDates, Split, Normal, Clean, AreLines;
    var crlf := UsesReturns(raw);
    SplitWithIs(raw, crlf);
    var lines := SplitWith(raw, crlf);
    NormalLines(lines, crlf);
    TwoAtLeast(raw, parse);
    DatedAreLines(lines, created, updated, parse);
    NormalLines(DatedLines(lines, created, updated), crlf);
    assert Unmarked(lines)[1..] == lines[1..];
    assert Unmarked(DatedLines(lines, created, updated)) == DatedLines(Unmarked(lines), created, updated);
  }

  lemma TwoAtLeast(raw: string, parse: Parse)
    requires TimestampFields(raw, parse) != NotDates
    ensures HasFront(Split(Normal(raw))) && FindingID(raw).Id?
  {
  }

  /** Dates written are the dates read. */
  lemma WrittenDatesAreRead(raw: string, created: string, updated: string, parse: Parse)
    requires Canonical(created, parse) && Canonical(updated, parse) && TimestampFields(raw, parse) != NotDates
    requires OneStyle(raw, UsesReturns(raw))
    ensures WithTimestamps(raw, created, updated, parse).Text?
    ensures TimestampFields(WithTimestamps(raw, created, updated, parse).text, parse) == Dates(created, updated)
  {
    hide DatesOf, Canonical, DatedLines;
    StampedLines(raw, created, updated, parse);
    DatedLinesRead(Split(Normal(raw)), created, updated, parse);
  }

  /** And they do not change what is hashed. */
  lemma WrittenDatesAreNotHashed(raw: string, created: string, updated: string, parse: Parse)
    requires Canonical(created, parse) && Canonical(updated, parse) && TimestampFields(raw, parse) != NotDates
    requires OneStyle(raw, UsesReturns(raw))
    ensures WithTimestamps(raw, created, updated, parse).Text?
    ensures FingerprintText(WithTimestamps(raw, created, updated, parse).text) == FingerprintText(raw)
  {
    TwoAtLeast(raw, parse);
    hide DatesOf, Canonical, DatedLines;
    StampedLines(raw, created, updated, parse);
    DatedLinesHash(Split(Normal(raw)), created, updated, parse);
  }

  /** The identity stays too, unless the line after the opening rule is a rule itself: then what
      was read past it is lost. */
  lemma WrittenDatesKeepTheId(raw: string, created: string, updated: string, parse: Parse)
    requires Canonical(created, parse) && Canonical(updated, parse) && TimestampFields(raw, parse) != NotDates
    requires OneStyle(raw, UsesReturns(raw))
    ensures WithTimestamps(raw, created, updated, parse).Text?
    ensures FindingID(WithTimestamps(raw, created, updated, parse).text) == FindingID(raw)
            <==> Split(Normal(raw))[1] != "---" || FindingID(raw) == Id("")
  {
    TwoAtLeast(raw, parse);
    hide DatesOf, Canonical, DatedLines;
    StampedLines(raw, created, updated, parse);
    var _ := DatedIdentity(Split(Normal(raw)), created, updated, parse);
  }

  /** Such a text: the rule twice, then the identity. */
  lemma WrittenDatesCanLoseTheId(id: string, created: string, updated: string, parse: Parse)
    requires CanonicalId(id) && Canonical(created, parse) && Canonical(updated, parse)
    ensures var raw := JoinWith(["---", "---", IdLine(id), "---"], false);
            FindingID(raw) == Id(id) && WithTimestamps(raw, created, updated, parse).Text?
            && FindingID(WithTimestamps(raw, created, updated, parse).text) == Id("")
  {
    hide Canonical, CanonicalId, DatesOf;
    var lines := ["---", "---", IdLine(id), "---"];
    var raw := JoinWith(lines, false);
    IdLineIs(id);
    SampleText(lines);
    SampleRead(lines, id, parse);
    StampedLines(raw, created, updated, parse);
    var _ := DatedIdentity(lines, created, updated, parse);
  }

  lemma SampleText(lines: seq<string>)
    requires |lines| == 4 && lines[0] == lines[1] == lines[3] == "---" && OneLine(lines[2]) && '\r' !in lines[2]
    ensures var raw := JoinWith(lines, false);
            Split(Normal(raw)) == lines && !UsesReturns(raw) && OneStyle(raw, false)
  {
    var raw := JoinWith(lines, false);
    StyledLines(lines, false);
    NoReturns(lines);
    assert raw == lines[0] + ("\n" + JoinWith(lines[1..], false));
    assert raw[0] == lines[0][0];
  }

  lemma {:induction false} NoReturns(lines: seq<string>)
    requires forall i :: 0 <= i < |lines| ==> '\r' !in lines[i]
    ensures '\r' !in JoinWith(lines, false)
  {
    if |lines| > 1 { NoReturns(lines[1..]); }
  }

  lemma SampleRead(lines: seq<string>, id: string, parse: Parse)
    requires CanonicalId(id) && lines == ["---", "---", IdLine(id), "---"]
    ensures FindingIDOf(lines) == Id(id) && DatesOf(lines, parse) != NotDates
  {
    IdLineIs(id);
    assert Cut("---") == None;
    assert Trim("id") == "id" by { assert !IsSpace("id"[0]) && !IsSpace("id"[1]); TrimLeftIs("id"); TrimRightIs("id"); }
    hide IdLine, Cut, Trim, CanonicalId;
    var front := lines[1..3];
    assert front == ["---", IdLine(id)] && front[..1] == ["---"] && front[..1][..0] == [];
    assert !HasPrefix(IdLine(id), "---") by { assert IdLine(id)[..3] == "id:"; }
    assert lines[2] == IdLine(id) && lines[3] == "---";
    assert EndFrom(lines, 3, false) == EndFrom(lines, 3, true) == Some(3);
    assert FrontEnd(lines, false) == Some(3) && FrontEnd(lines, true) == Some(3);
    assert IdsIn(front[..1]) == Id("") && DatesIn(front[..1], parse) == Dates("", "");
  }
}

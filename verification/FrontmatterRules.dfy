/** Which frontmatter is read and which is at fault, said by the positions of its lines. */
module FrontmatterRules {
  import opened TextLines
  import opened KnowledgeProjection
  import opened CopyIdentity
  import opened FindingIdentity
  import opened FindingDates

  // ---------- A field's name and value ----------

  /** A field is split at its first colon, if it has one. */
  lemma {:induction false} CutAtColon(line: string)
    ensures Cut(line).None? <==> ':' !in line
    ensures Cut(line).Some? ==> line == Cut(line).value.0 + ":" + Cut(line).value.1 && ':' !in Cut(line).value.0
  {
    CutJoins(line);
    if line != [] && line[0] != ':' {
      CutAtColon(line[1..]);
      assert line == [line[0]] + line[1..];
    }
  }

  function KeyOf(line: string): string { if Cut(line).Some? then Cut(line).value.0 else "" }

  function ValueOf(line: string): string { if Cut(line).Some? then Trim(Cut(line).value.1) else "" }

  // ---------- Identity ----------

  ghost predicate NamedBefore(front: seq<string>, j: nat)
    requires j <= |front|
  {
    exists i :: 0 <= i < j && IdNamed(front[i])
  }

  /** An id line that is not at the top level, is not the first, or has no canonical value. */
  ghost predicate BadId(front: seq<string>, j: nat)
    requires j < |front|
  {
    IdNamed(front[j]) && (KeyOf(front[j]) != "id" || NamedBefore(front, j) || !CanonicalId(ValueOf(front[j])))
  }

  ghost predicate FirstBadId(front: seq<string>, j: nat) {
    j < |front| && BadId(front, j) && forall i :: 0 <= i < j ==> !BadId(front, i)
  }

  /** What the lines say, whichever lines they are. */
  ghost predicate IdIs(front: seq<string>, result: IdResult) {
    match result
    case Id(id) =>
      (forall j :: 0 <= j < |front| ==> !BadId(front, j))
      && (id == "" <==> !NamedBefore(front, |front|))
      && forall j :: 0 <= j < |front| && IdNamed(front[j]) ==> ValueOf(front[j]) == id
    case Nested => exists j: nat :: FirstBadId(front, j) && KeyOf(front[j]) != "id"
    case NotOne => exists j: nat :: FirstBadId(front, j) && KeyOf(front[j]) == "id"
    case _ => false
  }

  lemma BadLater(front: seq<string>, more: seq<string>, j: nat)
    requires j < |front| <= |more| && more[..|front|] == front
    ensures BadId(more, j) <==> BadId(front, j)
    ensures front[j] == more[j]
  {
    assert forall i :: 0 <= i < |front| ==> more[i] == front[i];
  }

  lemma FirstBadLater(front: seq<string>, more: seq<string>, j: nat)
    requires |front| <= |more| && more[..|front|] == front && FirstBadId(front, j)
    ensures FirstBadId(more, j) && front[j] == more[j]
  {
    hide BadId;
    forall i | 0 <= i <= j ensures BadId(more, i) <==> BadId(front, i) { BadLater(front, more, i); }
    BadLater(front, more, j);
  }

  lemma NamedLater(front: seq<string>, more: seq<string>)
    requires |front| + 1 == |more| && more[..|front|] == front
    ensures NamedBefore(more, |front|) <==> NamedBefore(front, |front|)
    ensures NamedBefore(more, |more|) <==> NamedBefore(front, |front|) || IdNamed(more[|front|])
  {
    assert forall i :: 0 <= i < |front| ==> more[i] == front[i];
  }

  lemma NotEmptyId(id: string)
    requires CanonicalId(id)
    ensures id != ""
  {
  }

  lemma FaultLater(front: seq<string>, more: seq<string>, result: IdResult)
    requires |front| <= |more| && more[..|front|] == front && IdIs(front, result) && !result.Id?
    ensures IdIs(more, result)
  {
    hide BadId;
    if result.Nested? {
      var j: nat :| FirstBadId(front, j) && KeyOf(front[j]) != "id";
      FirstBadLater(front, more, j);
    } else {
      var j: nat :| FirstBadId(front, j) && KeyOf(front[j]) == "id";
      FirstBadLater(front, more, j);
    }
  }

  /** One line more, behind lines without a fault. */
  lemma IdStep(front: seq<string>, line: string, id: string)
    requires IdIs(front, Id(id))
    ensures var more := front + [line];
            IdIs(more, if !IdNamed(line) then Id(id)
                       else if KeyOf(line) != "id" then Nested
                       else if id != "" || !CanonicalId(ValueOf(line)) then NotOne
                       else Id(ValueOf(line)))
  {
    hide CanonicalId, IdNamed, KeyOf, ValueOf;
    var more := front + [line];
    assert more[..|front|] == front;
    NamedLater(front, more);
    forall i | 0 <= i < |front| ensures !BadId(more, i) { BadLater(front, more, i); }
    var n := |front|;
    assert more[n] == line;
    if BadId(more, n) {
      assert FirstBadId(more, n);
    } else if IdNamed(line) {
      NotEmptyId(ValueOf(line));
    }
  }

  lemma {:induction false} IdsAre(front: seq<string>)
    ensures IdIs(front, IdsIn(front))
    decreases |front|
  {
    hide IdIs, CanonicalId, Trim, Cut;
    if front == [] {
      NoIds();
    } else {
      var n := |front| - 1;
      IdsAre(front[..n]);
      assert front == front[..n] + [front[n]];
      if IdsIn(front[..n]).Id? {
        IdStep(front[..n], front[n], IdsIn(front[..n]).id);
      } else {
        FaultLater(front[..n], front, IdsIn(front[..n]));
      }
    }
  }

  lemma NoIds()
    ensures IdIs([], Id("")) && IdsIn([]) == Id("")
  {
  }

  /** A first line "---" and the next such line after the second enclose the frontmatter. */
  ghost predicate Encloses(lines: seq<string>, e: nat) {
    2 <= e < |lines| && lines[0] == "---" && lines[e] == "---" && forall j :: 2 <= j < e ==> lines[j] != "---"
  }

  /** An identity is read exactly where the frontmatter is enclosed and no id line in it is at fault, and
      is the value of the one id line there is; otherwise the first fault is the one reported. */
  lemma FindingIdIff(raw: string)
    ensures var lines, result := Split(Normal(raw)), FindingID(raw);
            (result == NoFrontmatter <==> |lines| < 2 || lines[0] != "---")
            && (result == Unclosed <==> |lines| >= 2 && lines[0] == "---" && forall e: nat :: !Encloses(lines, e))
            && forall e: nat :: Encloses(lines, e) ==> IdIs(lines[1..e], result)
  {
    hide Split, Normal, IdIs, IdsIn, EndFrom;
    var lines := Split(Normal(raw));
    EndIs(lines, 2, false);
    if |lines| >= 2 && lines[0] == "---" && FrontEnd(lines, false).Some? {
      var end := FrontEnd(lines, false).value;
      assert Encloses(lines, end);
      assert forall e: nat :: Encloses(lines, e) ==> e == end;
      IdsAre(lines[1..end]);
      NeitherEdge(lines[1..end]);
    }
  }

  lemma NeitherEdge(front: seq<string>)
    ensures IdsIn(front) != NoFrontmatter && IdsIn(front) != Unclosed
  {
    IdsAre(front);
    hide IdsIn;
  }

  // ---------- Dates ----------

  /** An earlier line gives the same date. */
  ghost predicate DatedBefore(front: seq<string>, j: nat, name: string)
    requires j <= |front|
  {
    exists i :: 0 <= i < j && DateNamed(front[i]) && Trim(KeyOf(front[i])) == name
  }

  /** A date line that is not at the top level, repeats a date, or cannot be read. */
  ghost predicate BadDate(front: seq<string>, j: nat, parse: Parse)
    requires j < |front|
  {
    DateNamed(front[j])
    && (KeyOf(front[j]) != Trim(KeyOf(front[j])) || DatedBefore(front, j, Trim(KeyOf(front[j]))) || parse(ValueOf(front[j])).None?)
  }

  /** The date of this name is that of its line, or empty if there is none. */
  ghost predicate DateIs(front: seq<string>, name: string, date: string, parse: Parse) {
    (date == "" <==> !DatedBefore(front, |front|, name))
    && forall j :: 0 <= j < |front| && DateNamed(front[j]) && Trim(KeyOf(front[j])) == name ==> parse(ValueOf(front[j])) == Some(date)
  }

  ghost predicate DatesAre(front: seq<string>, dates: Dates, parse: Parse) {
    match dates
    case Dates(created, updated) =>
      (forall j :: 0 <= j < |front| ==> !BadDate(front, j, parse))
      && DateIs(front, CREATED, created, parse) && DateIs(front, UPDATED, updated, parse)
    case NotDates => exists j :: 0 <= j < |front| && BadDate(front, j, parse)
  }

  lemma DatedLater(front: seq<string>, line: string, name: string)
    ensures var more := front + [line];
            DatedBefore(more, |more|, name) <==> DatedBefore(front, |front|, name) || (DateNamed(line) && Trim(KeyOf(line)) == name)
    ensures forall j: nat :: j <= |front| ==> (DatedBefore(front + [line], j, name) <==> DatedBefore(front, j, name))
  {
    hide DateNamed, KeyOf, Trim;
    var more := front + [line];
    assert more[|front|] == line && forall i :: 0 <= i < |front| ==> more[i] == front[i];
  }

  lemma BadDateLater(front: seq<string>, line: string, j: nat, parse: Parse)
    requires j <= |front|
    ensures j < |front| ==> (BadDate(front + [line], j, parse) <==> BadDate(front, j, parse))
    ensures j == |front| ==> (BadDate(front + [line], j, parse)
              <==> DateNamed(line) && (KeyOf(line) != Trim(KeyOf(line)) || DatedBefore(front, j, Trim(KeyOf(line))) || parse(ValueOf(line)).None?))
  {
    hide DateNamed, KeyOf, ValueOf, Trim, DatedBefore;
    if j < |front| {
      assert (front + [line])[j] == front[j];
      DatedLater(front, line, Trim(KeyOf(front[j])));
    } else {
      DatedLater(front, line, Trim(KeyOf(line)));
    }
  }

  lemma DateStays(front: seq<string>, line: string, name: string, date: string, parse: Parse)
    requires DateIs(front, name, date, parse) && !(DateNamed(line) && Trim(KeyOf(line)) == name)
    ensures DateIs(front + [line], name, date, parse)
  {
    DatedLater(front, line, name);
    hide DateNamed, KeyOf, ValueOf, Trim, DatedBefore;
    assert forall i :: 0 <= i < |front| ==> (front + [line])[i] == front[i];
  }

  lemma DateComes(front: seq<string>, line: string, name: string, date: string, parse: Parse)
    requires !DatedBefore(front, |front|, name) && DateNamed(line) && Trim(KeyOf(line)) == name
    requires parse(ValueOf(line)) == Some(date) && date != ""
    ensures DateIs(front + [line], name, date, parse)
  {
    DatedLater(front, line, name);
    hide DateNamed, KeyOf, ValueOf, Trim;
    assert forall i :: 0 <= i < |front| ==> (front + [line])[i] == front[i];
  }

  ghost predicate NeverEmpty(parse: Parse) { forall text :: parse(text) != Some("") }

  lemma DatesStep(front: seq<string>, line: string, dates: Dates, parse: Parse)
    requires DatesAre(front, dates, parse) && dates.Dates? && NeverEmpty(parse)
    ensures DatesAre(front + [line], DateStep(dates, line, parse), parse)
  {
    hide Trim, Cut, DateIs, DatedBefore, BadDate;
    var n, name := |front|, Trim(KeyOf(line));
    forall j: nat | j <= n ensures j < n ==> (BadDate(front + [line], j, parse) <==> BadDate(front, j, parse)) {
      BadDateLater(front, line, j, parse);
    }
    BadDateLater(front, line, n, parse);
    DateKnown(front, CREATED, dates.created, parse);
    DateKnown(front, UPDATED, dates.updated, parse);
    if !DateNamed(line) || name != CREATED { DateStays(front, line, CREATED, dates.created, parse); }
    if !DateNamed(line) || name != UPDATED { DateStays(front, line, UPDATED, dates.updated, parse); }
    if DateNamed(line) && !BadDate(front + [line], n, parse) {
      DateComes(front, line, name, parse(ValueOf(line)).value, parse);
    }
  }

  lemma DateKnown(front: seq<string>, name: string, date: string, parse: Parse)
    requires DateIs(front, name, date, parse)
    ensures date == "" <==> !DatedBefore(front, |front|, name)
  {
  }

  lemma {:induction false} DatesInAre(front: seq<string>, parse: Parse)
    requires NeverEmpty(parse)
    ensures DatesAre(front, DatesIn(front, parse), parse)
    decreases |front|
  {
    hide DatesAre, DateStep;
    if front == [] {
      NoDates(parse);
    } else {
      var n := |front| - 1;
      DatesInAre(front[..n], parse);
      assert front == front[..n] + [front[n]];
      if DatesIn(front[..n], parse).Dates? {
        DatesStep(front[..n], front[n], DatesIn(front[..n], parse), parse);
      } else {
        StillBad(front[..n], front[n], parse);
        StepStays(front[n], parse);
      }
    }
  }

  lemma NoDates(parse: Parse)
    ensures DatesAre([], Dates("", ""), parse)
  {
  }

  lemma StillBad(front: seq<string>, line: string, parse: Parse)
    requires DatesAre(front, NotDates, parse)
    ensures DatesAre(front + [line], NotDates, parse)
  {
    hide BadDate;
    var j :| 0 <= j < |front| && BadDate(front, j, parse);
    BadDateLater(front, line, j, parse);
  }

  lemma StepStays(line: string, parse: Parse)
    ensures DateStep(NotDates, line, parse) == NotDates
  {
  }

  /** For dates the next line that begins with "---" closes the frontmatter. */
  ghost predicate EnclosesDates(lines: seq<string>, e: nat) {
    2 <= e < |lines| && "---" <= lines[e] && forall j :: 2 <= j < e ==> !("---" <= lines[j])
  }

  lemma DatesEnd(lines: seq<string>) returns (end: nat)
    requires FindingIDOf(lines).Id?
    ensures FrontEnd(lines, true) == Some(end) && EnclosesDates(lines, end)
  {
    hide EndFrom, IdsIn;
    EndIs(lines, 2, false);
    EndIs(lines, 2, true);
    end := FrontEnd(lines, true).value;
  }

  lemma EnclosedEnd(lines: seq<string>, end: nat)
    requires EnclosesDates(lines, end)
    ensures 2 <= end < |lines|
  {
  }

  /** Dates are read exactly where an identity is read, or none is there, and no date line is at fault; each is
      that of the one line that gives it. */
  lemma TimestampFieldsIff(raw: string, parse: Parse) returns (end: nat)
    requires NeverEmpty(parse)
    ensures var lines, dates := Split(Normal(raw)), TimestampFields(raw, parse);
            if FindingID(raw).Id? then EnclosesDates(lines, end) && DatesAre(lines[1..end], dates, parse)
            else dates == NotDates
  {
    hide Split, Normal, DatesAre, DatesIn, EndFrom, IdsIn, EnclosesDates;
    var lines := Split(Normal(raw));
    end := 0;
    if FindingID(raw).Id? {
      end := DatesEnd(lines);
      EnclosedEnd(lines, end);
      DatesInAre(lines[1..end], parse);
    }
  }
}

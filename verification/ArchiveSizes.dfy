/** How long the lines of a real archive are, and which documents spoil it.

  The row limit looks at the text the database renders. The line that goes into the archive is
  encoded once more, which drops the rendering's blanks and writes '<', '>' and '&' as six bytes.
 */
module ArchiveSizes {
  import opened KnowledgeLibrary
  import opened ArchiveFormat
  import opened ArchiveExport

  const MAX_UPLOAD := 1536 * 1024
  const ID_BYTES := 36
  const CHAIN_BYTES := 64

  // ---------- Texts ----------

  /** A character inside a rendered string: quotes, backslashes and the five short escapes take two
      bytes, other control characters six. */
  function RenderedChar(c: char): nat {
    if c == '\"' || c == '\\' || 8 <= c as int <= 10 || 12 <= c as int <= 13 then 2
    else if c < ' ' then 6
    else 1
  }

  predicate Special(c: char) { c == '<' || c == '>' || c == '&' }

  function Rendered(text: string): nat {
    if text == [] then 0 else Rendered(text[..|text| - 1]) + RenderedChar(text[|text| - 1])
  }

  function Encoded(text: string): nat {
    if text == [] then 0
    else Encoded(text[..|text| - 1]) + if Special(text[|text| - 1]) then 6 else RenderedChar(text[|text| - 1])
  }

  function Specials(text: string): nat {
    if text == [] then 0 else Specials(text[..|text| - 1]) + if Special(text[|text| - 1]) then 1 else 0
  }

  lemma {:induction false} EncodingGrows(text: string)
    ensures Encoded(text) == Rendered(text) + 5 * Specials(text)
  {
    if text != [] { EncodingGrows(text[..|text| - 1]); }
  }

  // ---------- Lines ----------

  function Digits(n: nat): nat { if n < 10 then 1 else Digits(n / 10) + 1 }

  /** A 64-bit counter. */
  function CounterBytes(n: int): nat { Digits(n % 0x8000_0000_0000_0000) }

  function DocTexts(line: Line): nat
    requires line.Doc?
  {
    Rendered(line.path) + Rendered(line.markdown) + Rendered(line.fingerprint)
  }

  function DocSpecials(line: Line): nat
    requires line.Doc?
  {
    Specials(line.path) + Specials(line.markdown) + Specials(line.fingerprint)
  }

  /** {"id": "…", "path": "…", "markdown": "…", "fingerprint": "…"}, as the database renders it. */
  function RowBytes(line: Line): nat { if line.Doc? then 93 + DocTexts(line) else 0 }

  function EncodedTexts(line: Line): nat
    requires line.Doc?
  {
    Encoded(line.path) + Encoded(line.markdown) + Encoded(line.fingerprint)
  }

  /** {"data":{…},"type":"…"}, the fields in order of their names except those of a row. */
  function LineBytes(line: Line): nat {
    match line
    case Manifest(format, community, name, scope, sequence) =>
      91 + Encoded(community) + Encoded(format) + Encoded(name) + Encoded(scope) + CounterBytes(sequence)
    case Doc(_, _, _, _) => 77 + ID_BYTES + EncodedTexts(line)
    case Finish(records, chain) => 45 + (if chain.Origin? then 0 else CHAIN_BYTES) + CounterBytes(records)
    case Malformed(text) => |text|
  }

  const ENCODED := Sizes((line: Line) => LineBytes(line), (line: Line) => RowBytes(line))

  /** Exactly which documents fit the verifier's buffer. */
  lemma DocumentFitsIff(id: Id, d: Document)
    ensures var line := EntryOf(id, d);
            Readable(line, ENCODED.width) <==> RowBytes(line) + 5 * DocSpecials(line) + 21 <= MAX_RECORD
  {
    EncodingGrows(d.path);
    EncodingGrows(d.markdown);
    EncodingGrows(d.fingerprint);
  }

  // ---------- Short lines ----------

  function Ten(k: nat): nat { if k == 0 then 1 else 10 * Ten(k - 1) }

  lemma {:induction false} DigitsAtMost(n: nat, k: nat)
    requires k >= 1 && n < Ten(k)
    ensures Digits(n) <= k
    decreases k
  {
    if n >= 10 { DigitsAtMost(n / 10, k - 1); }
  }

  lemma {:induction false} TenAdds(a: nat, b: nat)
    ensures Ten(a + b) == Ten(a) * Ten(b)
    decreases a
  {
    if a > 0 { TenAdds(a - 1, b); }
  }

  lemma CounterIsShort(n: int)
    ensures CounterBytes(n) <= 20
  {
    assert Ten(1) == 10 && Ten(2) == 100 && Ten(3) == 1000 && Ten(4) == 10_000 && Ten(5) == 100_000;
    TenAdds(5, 5);
    TenAdds(10, 10);
    DigitsAtMost(n % 0x8000_0000_0000_0000, 20);
  }

  lemma EndIsShort(records: int, chain: Chain)
    ensures LineBytes(Finish(records, chain)) <= 129
  {
    CounterIsShort(records);
  }

  // ---------- What came by upload ----------

  /** The bytes a document takes in an upload's body, which is encoded the same way. */
  function SentBytes(d: Document): nat { 50 + ID_BYTES + Encoded(d.path) + Encoded(d.markdown) + Encoded(d.fingerprint) }

  lemma UploadedFits(id: Id, d: Document)
    requires SentBytes(d) <= MAX_UPLOAD
    ensures Exportable(EntryOf(id, d), ENCODED) && Readable(EntryOf(id, d), ENCODED.width)
  {
    DocumentFitsIff(id, d);
    EncodingGrows(d.path);
    EncodingGrows(d.markdown);
    EncodingGrows(d.fingerprint);
  }

  ghost predicate AllUploaded(s: Snapshot) { forall id :: id in s.docs ==> SentBytes(s.docs[id]) <= MAX_UPLOAD }

  /** An export of uploaded documents always comes to its end, and its own verifier accepts it. */
  lemma UploadedExportVerifies(s: Snapshot) returns (k: nat)
    requires 0 !in s.docs && s.community != "" && AllUploaded(s) && Readable(ManifestOf(s), ENCODED.width)
    ensures k <= |s.docs| + 2 && Trail(s, k, ENCODED).Some? && Trail(s, k, ENCODED).value.section > 1
    ensures Complete(Joined(Frames(s, k, ENCODED))) && AllReadable(Joined(Frames(s, k, ENCODED)), ENCODED.width)
  {
    hide Build, Frames, Joined, Complete, AllReadable, SentBytes, LineBytes, RowBytes;
    forall id | id in s.docs
      ensures Exportable(EntryOf(id, s.docs[id]), ENCODED) && Readable(EntryOf(id, s.docs[id]), ENCODED.width)
    {
      UploadedFits(id, s.docs[id]);
    }
    forall n, c ensures Readable(Finish(n, c), ENCODED.width) { EndIsShort(n, c); }
    k := ExportEnds(s, ENCODED);
    if k > 0 { EndIsShort(|s.docs|, Trail(s, k - 1, ENCODED).value.chain); }
    FinishedExportVerifies(s, k, ENCODED);
  }

  // ---------- What spoils an export ----------

  /** A finished export is refused by its own verifier exactly if its manifest is too long, or some
      document's rendering, and five bytes more for each '<', '>' and '&', is. */
  lemma ExportIsSpoiledIff(s: Snapshot, k: nat)
    requires 0 !in s.docs && s.community != "" && Trail(s, k, ENCODED).Some? && Trail(s, k, ENCODED).value.section > 1
    ensures Complete(Joined(Frames(s, k, ENCODED)))
    ensures !AllReadable(Joined(Frames(s, k, ENCODED)), ENCODED.width) <==>
              LineBytes(ManifestOf(s)) + 1 > MAX_RECORD
              || exists id :: id in s.docs && TooLong(EntryOf(id, s.docs[id]))
  {
    hide Build, Frames, Joined, Complete, AllReadable, LineBytes, RowBytes, DocSpecials;
    FinishedExportVerifies(s, k, ENCODED);
    var last := Finish(|s.docs|, Trail(s, k - 1, ENCODED).value.chain);
    EndIsShort(last.records, last.chain);
    forall id | id in s.docs ensures TooLong(EntryOf(id, s.docs[id])) <==> !Readable(EntryOf(id, s.docs[id]), ENCODED.width) {
      DocumentFitsIff(id, s.docs[id]);
    }
  }

  predicate TooLong(line: Line) { line.Doc? && RowBytes(line) + 5 * DocSpecials(line) + 21 > MAX_RECORD }

  function OneDocument(d: Document): Snapshot { Snapshot("c", "", "", 1, map[1 := d]) }

  /** A document that passes the row limit, fills a chunk alone and still fits the limit on chunks. */
  lemma OneChunk(d: Document)
    requires Exportable(EntryOf(1, d), ENCODED) && LineBytes(EntryOf(1, d)) >= CHUNK
    requires LineBytes(ManifestOf(OneDocument(d))) + LineBytes(EntryOf(1, d)) + 2 <= MAX_CHUNK
    ensures var s := OneDocument(d); var body := [ManifestOf(s), EntryOf(1, d)];
            Build(s, ORIGIN, ENCODED) == Some(Chunk(body, Position(1, 1, Link(Origin, body), 1)))
  {
    hide LineBytes, RowBytes, Fill, Size;
    var s := OneDocument(d);
    var one, line := [ManifestOf(s)], EntryOf(1, d);
    assert IsNext(s.docs, 0, 1);
    assert [] + one == one && one + [line] == [ManifestOf(s), line];
    SizeNothing(ENCODED.width);
    SizeMore([], ManifestOf(s), ENCODED.width);
    SizeMore(one, line, ENCODED.width);
    SmallManifest(d);
    FillNext(s, Position(1, 0, Origin, 0), one, 0, ENCODED);
    FillNext(s, Position(1, 1, Origin, 1), one + [line], 1, ENCODED);
  }

  lemma SmallManifest(d: Document)
    ensures LineBytes(ManifestOf(OneDocument(d))) < 300
  {
    CounterIsShort(1);
    AsciiBytes(FORMAT);
    AsciiBytes("c");
  }

  lemma {:induction false} AsciiBytes(text: string)
    ensures Encoded(text) <= 6 * |text|
  {
    if text != [] { AsciiBytes(text[..|text| - 1]); }
  }

  lemma LastChunk(d: Document, p: Position)
    requires p.section == 1 && p.key == 1
    ensures Build(OneDocument(d), p, ENCODED).Some? && Build(OneDocument(d), p, ENCODED).value.after.section == 2
  {
    hide LineBytes, RowBytes, Fill, Size;
    var s := OneDocument(d);
    var q, last := p.(section := 2, key := 0), Finish(p.records, p.chain);
    assert NoneAfter(s.docs, 1);
    SizeNothing(ENCODED.width);
    FillNext(s, p, [], 0, ENCODED);
    FillNext(s, q, [], 0, ENCODED);
    SizeMore([], last, ENCODED.width);
    EndIsShort(p.records, p.chain);
  }

  function Brackets(n: nat): string { seq(n, _ => '<') }

  lemma {:induction false} BracketsAre(n: nat)
    ensures Rendered(Brackets(n)) == n && Specials(Brackets(n)) == n
  {
    if n > 0 {
      BracketsAre(n - 1);
      assert Brackets(n)[..n - 1] == Brackets(n - 1);
    }
  }

  /** 900,000 brackets pass the row limit, are exported in full, and the verifier refuses the archive.
      Too long once encoded for an upload, such a document is one carried over from the older format. */
  lemma EncodingCanSpoilAnExport(generation: int)
    ensures var d := Document("p", Brackets(900_000), "f", generation); var s := OneDocument(d);
            Exportable(EntryOf(1, d), ENCODED) && Trail(s, 2, ENCODED).Some? && Trail(s, 2, ENCODED).value.section > 1
            && Complete(Joined(Frames(s, 2, ENCODED))) && !AllReadable(Joined(Frames(s, 2, ENCODED)), ENCODED.width)
  {
    hide Build, Frames, Joined, Complete, AllReadable, LineBytes, Brackets;
    var d := Document("p", Brackets(900_000), "f", generation);
    var s, line := OneDocument(d), EntryOf(1, d);
    BracketsLine(line);
    SmallManifest(d);
    OneChunk(d);
    assert Trail(s, 0, ENCODED) == Some(ORIGIN);
    var p := Trail(s, 1, ENCODED).value;
    LastChunk(d, p);
    assert Trail(s, 2, ENCODED).Some?;
    ExportIsSpoiledIff(s, 2);
    assert 1 in s.docs && TooLong(EntryOf(1, s.docs[1]));
  }

  lemma BracketsLine(line: Line)
    requires line.Doc? && line.path == "p" && line.fingerprint == "f" && line.markdown == Brackets(900_000)
    ensures RowBytes(line) == 900_095 && DocSpecials(line) == 900_000 && LineBytes(line) == 5_400_115
  {
    hide Brackets;
    BracketsAre(900_000);
    EncodingGrows(line.markdown);
    assert "p"[..0] == "" && "f"[..0] == "";
  }
}

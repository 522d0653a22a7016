/** The portable archive: its lines, the chain over its chunks, and what a complete one is.

  A hash is taken to be injective, so a chain is the history it was computed from. How many
  bytes a line takes is the encoder's business and comes in as `width`.
 */
module ArchiveFormat {
  import opened KnowledgeLibrary

  const FORMAT := "re-discipline-knowledge-v2"
  const MAX_RECORD := 4 * 1024 * 1024
  const MAX_CHUNK := 6 * 1024 * 1024

  datatype Line =
    | Manifest(format: string, community: string, name: string, scope: string, sequence: int)
    | Doc(id: Id, path: string, markdown: string, fingerprint: string)
    | Finish(records: int, chain: Chain)
    | Malformed(text: string)

  datatype Chain = Origin | Link(previous: Chain, body: seq<Line>)

  type Width = Line -> nat

  function Size(body: seq<Line>, width: Width): nat {
    if body == [] then 0 else Size(body[..|body| - 1], width) + width(body[|body| - 1]) + 1
  }

  datatype Summary = Summary(community: string, name: string, records: int, bytes: nat)

  /** The line and its newline fit the reader's buffer. */
  predicate Readable(line: Line, width: Width) { width(line) + 1 <= MAX_RECORD }

  /** A manifest, entries, and an end that counts them; nothing before, between or after. */
  ghost predicate Complete(lines: seq<Line>) {
    |lines| >= 2
    && lines[0].Manifest? && lines[0].format == FORMAT && lines[0].community != ""
    && (forall k :: 0 < k < |lines| - 1 ==> lines[k].Doc?)
    && lines[|lines| - 1].Finish? && lines[|lines| - 1].records == |lines| - 2
  }

  ghost predicate AllReadable(lines: seq<Line>, width: Width) {
    forall k :: 0 <= k < |lines| ==> Readable(lines[k], width)
  }

  /** Scan an archive once; a summary comes back exactly for a complete, readable one. */
  method Verify(lines: seq<Line>, width: Width) returns (summary: Option<Summary>)
    ensures summary.Some? <==> Complete(lines) && AllReadable(lines, width)
    ensures summary.Some? ==> summary.value == Summary(lines[0].community, lines[0].name, |lines| - 2, Size(lines, width))
  {
    var first, ended := true, false;
    var out := Summary("", "", 0, 0);
    var i := 0;
    while i < |lines|
      invariant 0 <= i <= |lines| && (first <==> i == 0) && (ended ==> i >= 2)
      invariant out.bytes == Size(lines[..i], width) && AllReadable(lines[..i], width)
      invariant !first ==> lines[0].Manifest? && lines[0].format == FORMAT && lines[0].community != ""
                           && out.community == lines[0].community && out.name == lines[0].name
      invariant !ended ==> (forall k :: 0 < k < i ==> lines[k].Doc?) && out.records == if i == 0 then 0 else i - 1
      invariant ended ==> Complete(lines[..i]) && out.records == i - 2
    {
      var line := lines[i];
      NextLine(lines, i, width);
      if !Readable(line, width) { return None; }
      out := out.(bytes := out.bytes + width(line) + 1);
      if line.Malformed? || ended { return None; }
      if first {
        if !line.Manifest? || line.format != FORMAT || line.community == "" { return None; }
        out := out.(community := line.community, name := line.name);
        first := false;
      } else if line.Manifest? {
        return None;
      } else if line.Finish? {
        if line.records != out.records { return None; }
        ended := true;
      } else {
        out := out.(records := out.records + 1);
      }
      i := i + 1;
    }
    assert lines[..i] == lines;
    if first || !ended { return None; }
    summary := Some(out);
  }

  lemma NextLine(lines: seq<Line>, i: nat, width: Width)
    requires i < |lines|
    ensures Size(lines[..i + 1], width) == Size(lines[..i], width) + width(lines[i]) + 1
    ensures AllReadable(lines[..i + 1], width) <==> AllReadable(lines[..i], width) && Readable(lines[i], width)
  {
    assert lines[..i + 1][..i] == lines[..i];
    assert lines[..i + 1] == lines[..i] + [lines[i]];
  }

  // ---------- Chunks into one file ----------

  /** Concatenated frames decode to the concatenation of what they hold. */
  function Joined(frames: seq<seq<Line>>): seq<Line> {
    if frames == [] then [] else Joined(frames[..|frames| - 1]) + frames[|frames| - 1]
  }

  function ChainOf(frames: seq<seq<Line>>): Chain {
    if frames == [] then Origin else Link(ChainOf(frames[..|frames| - 1]), frames[|frames| - 1])
  }

  /** Equal chains mean equal files, chunk for chunk. */
  lemma {:induction false} ChainDeterminesFile(a: seq<seq<Line>>, b: seq<seq<Line>>)
    requires ChainOf(a) == ChainOf(b)
    ensures a == b
    decreases |a|
  {
    if a != [] && b != [] {
      ChainDeterminesFile(a[..|a| - 1], b[..|b| - 1]);
      assert a == a[..|a| - 1] + [a[|a| - 1]];
      assert b == b[..|b| - 1] + [b[|b| - 1]];
    }
  }
}

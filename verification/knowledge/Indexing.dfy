/** Which texts can be indexed. */
module KnowledgeIndexing {
  import opened Wrappers
  import opened Text
  import opened Markdown
  import opened Splitting
  import opened KnowledgeTypes
  import opened KnowledgeSteps
  import opened SectionTitles
  import Chunker

  /** The text parses to itself, and its chunks meet the record schema, whatever vectors are bound to them. */
  predicate Indexable(citation: nat, content: Revision) {
    && content.body.Some? && Chunker.Normalize(content.body.value) == content.body.value
    && var parsed := Chunker.ParseRevision(citation, content.meta.title, content.format, content.body.value);
       parsed.Some? && forall c :: c in parsed.value ==> ValidChunk(c)
  }

  // --- Evidence exists exactly for texts that can be indexed ---

  function UnitVector(): (v: seq<real>)
    ensures |v| == 1536 && exists x :: x in v && x != 0.0
  {
    var v := seq(1536, i => 1.0);
    assert v[0] in v && v[0] != 0.0;
    v
  }

  function RecordsOf(g: GenId, chunks: seq<Chunker.Chunk>): (records: seq<Record>)
    ensures |records| == |chunks|
    ensures forall i :: 0 <= i < |chunks| ==> records[i].gen == g && records[i].chunk == chunks[i]
    ensures forall r :: r in records ==> r.chunk in chunks && r.vector == UnitVector()
  {
    seq(|chunks|, i requires 0 <= i < |chunks| => Record(g, chunks[i], UnitVector()))
  }

  lemma IndexableIff(citation: nat, content: Revision, g: GenId)
    ensures Indexable(citation, content) <==> exists records :: ValidEvidence(citation, content, g, records)
  {
    if Indexable(citation, content) {
      var _ := EvidenceFor(citation, content, g);
    }
    forall records | ValidEvidence(citation, content, g, records)
      ensures Indexable(citation, content)
    {
      EvidenceIsIndexable(citation, content, g, records);
    }
    hide Indexable, ValidEvidence;
  }

  lemma EvidenceFor(citation: nat, content: Revision, g: GenId) returns (records: seq<Record>)
    requires Indexable(citation, content)
    ensures ValidEvidence(citation, content, g, records)
  {
    var parsed := Chunker.ParseRevision(citation, content.meta.title, content.format, content.body.value).value;
    records := RecordsOf(g, parsed);
    hide Chunker.ParseRevision, Chunker.Normalize, ValidChunk, UnitVector;
    assert AllValid(records);
  }

  lemma EvidenceIsIndexable(citation: nat, content: Revision, g: GenId, records: seq<Record>)
    requires ValidEvidence(citation, content, g, records)
    ensures Indexable(citation, content)
  {
    var parsed := Chunker.ParseRevision(citation, content.meta.title, content.format, content.body.value).value;
    hide Chunker.ParseRevision, Chunker.Normalize, ValidChunk;
    forall c | c in parsed
      ensures ValidChunk(c)
    {
      var i :| 0 <= i < |parsed| && parsed[i] == c;
      assert ValidRecord(records[i]);
    }
  }

  // --- The condition on the text itself ---

  lemma ValidIffNamed(chunk: Chunker.Chunk, fragment: Section)
    requires chunk.path == fragment.path && Fits(chunk.content, Chunker.MAX_CHUNK_CHARACTERS)
    ensures ValidChunk(chunk) <==> PathNamed(fragment.path)
  {
    hide Squeeze, Strip;
    SqueezeVisible(chunk.content, 0);
    StripSqueeze(chunk.content);
  }

  lemma ChunksNamed(source: Chunker.Source)
    requires AllVisible(Chunker.SectionsOf(source))
    ensures (forall c :: c in Chunker.Chunks(source, Chunker.MAX_CHUNK_CHARACTERS) ==> ValidChunk(c))
            <==> PathsNamed(Chunker.SectionsOf(source))
  {
    var fragments := Chunker.AllFragments(Chunker.SectionsOf(source), Chunker.MAX_CHUNK_CHARACTERS);
    var chunks := Chunker.Chunks(source, Chunker.MAX_CHUNK_CHARACTERS);
    FragmentsNamed(Chunker.SectionsOf(source), Chunker.MAX_CHUNK_CHARACTERS);
    Chunker.ChunksConserve(source, Chunker.MAX_CHUNK_CHARACTERS);
    hide Squeeze, Chunker.AllFragments, Chunker.SectionsOf, ValidChunk, PathNamed, Fits, AllVisible;
    forall i | 0 <= i < |chunks|
      ensures ValidChunk(chunks[i]) <==> PathNamed(fragments[i].path)
    {
      assert chunks[i] in chunks;
      ValidIffNamed(chunks[i], fragments[i]);
    }
    assert |chunks| == |fragments|;
    hide Chunker.Chunks;
    EachNamed(chunks, fragments);
  }

  lemma EachNamed(chunks: seq<Chunker.Chunk>, fragments: seq<Section>)
    requires |chunks| == |fragments|
    requires forall i :: 0 <= i < |chunks| ==> (ValidChunk(chunks[i]) <==> PathNamed(fragments[i].path))
    ensures (forall c :: c in chunks ==> ValidChunk(c)) <==> PathsNamed(fragments)
  {
    hide ValidChunk, PathNamed;
    if forall c :: c in chunks ==> ValidChunk(c) {
      forall f | f in fragments
        ensures PathNamed(f.path)
      {
        var i :| 0 <= i < |fragments| && fragments[i] == f;
        assert chunks[i] in chunks;
      }
    }
  }

  /**
    * A revision can be indexed exactly when its body parses to itself and its titles fit the record schema: a title of
    * a plain text may be longer, and a Markdown heading empty or longer, and then no build of the revision succeeds.
    */
  lemma IndexableTexts(citation: nat, content: Revision)
    ensures Indexable(citation, content) <==>
            && content.body.Some? && Chunker.Normalize(content.body.value) == content.body.value
            && Chunker.ParseRevision(citation, content.meta.title, content.format, content.body.value).Some?
            && TitlesNamed(content.meta.title, content.format, content.body.value)
  {
    if content.body.Some? && Chunker.Normalize(content.body.value) == content.body.value
       && Chunker.ParseRevision(citation, content.meta.title, content.format, content.body.value).Some? {
      var body, title := content.body.value, content.meta.title;
      var source := Chunker.Source(citation, title, content.format, body);
      SourceNamed(source);
      hide TitlesNamed, Chunker.Chunks, Chunker.SectionsOf, Chunker.Normalize, ValidChunk, PathsNamed;
      ChunksNamed(source);
    }
  }

  // --- Texts that are parsed but can never be indexed ---

  lemma ParsesIff(citation: nat, title: string, format: Chunker.Format, body: string)
    requires Chunker.Normalize(body) == body
    ensures Chunker.ParseRevision(citation, title, format, body).Some? <==>
            Strip(body) != [] && (format.MarkdownFormat? ==> Chunker.HasTitle(body, title))
  {
    StripSqueeze(body);
    Chunker.ChunksConserve(Chunker.Source(citation, title, format, body), Chunker.MAX_CHUNK_CHARACTERS);
    hide Chunker.Chunks, Chunker.HasTitle, Chunker.Normalize, Strip, Squeeze;
  }

  lemma TwoLines(a: string, b: string)
    requires b != [] && forall k :: 0 <= k < |a + b| ==> !IsLineBreak((a + b)[k])
    ensures SplitLines(a + "\n" + b) == [a, b]
  {
    var s := a + "\n" + b;
    forall k | 0 <= k < |s| && k != |a|
      ensures !IsLineBreak(s[k])
    {
      assert s[k] == (a + b)[if k < |a| then k else k - 1];
    }
    assert s[|a|] == '\n' && LineEnd(s) == |a|;
    assert s[..|a|] == a && s[|a| + 1..] == b;
    assert LineEnd(b) == |b| by {
      assert forall k :: 0 <= k < |b| ==> b[k] == s[|a| + 1 + k];
    }
  }

  // A hash followed by nothing but two blanks reads as a heading without a title.
  predicate IsBareHeading(line: string) {
    |line| == 3 && line[0] == '#' && line[1] == ' ' && line[2] == ' '
  }

  predicate IsTitleLine(line: string, title: string) {
    |title| == 1 && title[0] == 'a' && line == "# " + title
  }

  lemma BareHeading(line: string)
    requires IsBareHeading(line)
    ensures HeadingOf(line) == Some(Heading(1, "")) && FenceOf(line).None?
  {
    assert RunLength(line[1..], '#') == 0;
    var one := line[2..];
    assert line[1..][1..] == one && one[1..] == [];
    assert DropBlanks(one) == DropBlanks([]) == [];
    assert DropBlanks(line[1..]) == DropBlanks(one);
    assert DropBlanks(line) == line;
  }

  lemma TitleLine(line: string, title: string)
    requires IsTitleLine(line, title)
    ensures FenceOf(line).None? && Strip(line) == line
    ensures StripRight(DropTrailing(StripRight(line[2..]), c => c == '#')) == title
  {
    assert line[2] == title[0] && line[2..] == title;
    assert DropBlanks(line) == line;
  }

  lemma BareParses(citation: nat, title: string, first: string, second: string)
    requires IsTitleLine(first, title) && IsBareHeading(second)
    ensures Chunker.Normalize(first + "\n" + second) == first + "\n" + second
    ensures Chunker.ParseRevision(citation, title, Chunker.MarkdownFormat, first + "\n" + second).Some?
  {
    var body := first + "\n" + second;
    TwoLines(first, second);
    TitleLine(first, title);
    SqueezeVisible(body, 0);
    StripSqueeze(body);
    Chunker.UnifyUnchanged(body);
    assert "# " <= first && !("## " <= first);
    hide Strip, StripRight, DropTrailing, Squeeze, Chunker.ParseRevision, SplitLines, Chunker.UnifyNewlines;
    ParsesIff(citation, title, Chunker.MarkdownFormat, body);
  }

  lemma BareIsUnnamed(title: string, first: string, second: string)
    requires IsTitleLine(first, title) && IsBareHeading(second)
    ensures !TitlesNamed(title, Chunker.MarkdownFormat, first + "\n" + second)
  {
    TwoLines(first, second);
    BareHeading(second);
    TitleLine(first, title);
    hide Strip, StripRight, DropTrailing, HeadingOf, FenceOf, SplitLines;
    var lines := [first, second];
    assert FenceBefore(lines, 0).None? && FenceBefore(lines, 1).None?;
    assert MarkAt(lines, 1) == Some(Heading(1, ""));
  }

  /** A Markdown body with an empty heading parses and is confirmed, but has no evidence that could be stored. */
  lemma ParsedButNeverIndexed(citation: nat, content: Revision, g: GenId, first: string, second: string)
    requires IsTitleLine(first, content.meta.title) && IsBareHeading(second) && content.format.MarkdownFormat?
    requires content.body == Some(first + "\n" + second)
    ensures Chunker.ParseRevision(citation, content.meta.title, content.format, content.body.value).Some?
    ensures !Indexable(citation, content) && forall records :: !ValidEvidence(citation, content, g, records)
  {
    hide IsTitleLine, IsBareHeading, TitlesNamed, Chunker.ParseRevision, Indexable, ValidEvidence;
    BareParses(citation, content.meta.title, first, second);
    BareIsUnnamed(content.meta.title, first, second);
    IndexableTexts(citation, content);
    IndexableIff(citation, content, g);
  }
}

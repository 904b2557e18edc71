/** The chunker: fragments and their identities. */
module Chunker {
  import opened Wrappers
  import opened Text
  import opened Markdown
  import opened Splitting

  const MAX_CHUNK_CHARACTERS: nat := 1200

  datatype Format = MarkdownFormat | PlainText

  datatype Source = Source(document: nat, title: string, format: Format, content: string)

  // An injective digest is kept as the tuple it is computed from.
  datatype ChunkId = ChunkId(document: nat, fragment: Section, occurrence: nat)

  datatype Chunk = Chunk(id: ChunkId, index: nat, path: seq<string>, content: string)

  function SectionsOf(source: Source): seq<Section> {
    if source.format.MarkdownFormat? then Sections(source.title, source.content)
    else [Section([source.title], source.content)]
  }

  function Fragments(path: seq<string>, texts: seq<string>): (r: seq<Section>)
    ensures |r| == |texts|
    ensures forall i :: 0 <= i < |texts| ==> r[i] == Section(path, texts[i])
  {
    seq(|texts|, i requires 0 <= i < |texts| => Section(path, texts[i]))
  }

  function AllFragments(sections: seq<Section>, limit: nat): seq<Section>
    requires limit >= 32
  {
    if sections == [] then []
    else Fragments(sections[0].path, SplitText(sections[0].content, limit)) + AllFragments(sections[1..], limit)
  }

  /** Fragment i is numbered among the fragments that equal it. */
  function ChunkAt(document: nat, fragments: seq<Section>, i: nat): Chunk
    requires i < |fragments|
  {
    var f := fragments[i];
    Chunk(ChunkId(document, f, multiset(fragments[..i])[f]), i, f.path, f.content)
  }

  function Numbered(document: nat, fragments: seq<Section>): (chunks: seq<Chunk>)
    ensures |chunks| == |fragments|
    ensures forall i :: 0 <= i < |fragments| ==> chunks[i] == ChunkAt(document, fragments, i)
  {
    seq(|fragments|, i requires 0 <= i < |fragments| => ChunkAt(document, fragments, i))
  }

  function Chunks(source: Source, limit: nat): seq<Chunk>
    requires limit >= 32
  {
    Numbered(source.document, AllFragments(SectionsOf(source), limit))
  }

  /** The chunker's outer loops: sections into fragments, fragments into identified chunks. */
  method Split(source: Source, limit: nat) returns (chunks: seq<Chunk>)
    requires limit >= 32
    ensures chunks == Chunks(source, limit)
  {
    hide Sections, SplitText;
    var sections;
    if source.format.MarkdownFormat? {
      sections := MarkdownSections(source.title, source.content);
    } else {
      sections := [Section([source.title], source.content)];
    }
    assert sections == SectionsOf(source);
    var fragments: seq<Section> := [];
    assert sections[0..] == sections;
    for i := 0 to |sections|
      invariant fragments + AllFragments(sections[i..], limit) == AllFragments(sections, limit)
    {
      var texts := SplitOversizedText(sections[i].content, limit);
      FragmentsStep(fragments, sections, i, limit);
      fragments := fragments + Fragments(sections[i].path, texts);
    }
    assert fragments == AllFragments(sections, limit);
    chunks := NumberChunks(source.document, fragments);
  }

  lemma FragmentsStep(done: seq<Section>, sections: seq<Section>, i: nat, limit: nat)
    requires limit >= 32 && i < |sections|
    ensures done + AllFragments(sections[i..], limit)
         == done + Fragments(sections[i].path, SplitText(sections[i].content, limit))
           + AllFragments(sections[i + 1..], limit)
  {
    hide SplitText;
    assert sections[i..][0] == sections[i] && sections[i..][1..] == sections[i + 1..];
    Associative(done, Fragments(sections[i].path, SplitText(sections[i].content, limit)),
                AllFragments(sections[i + 1..], limit));
  }

  /** The dictionary of signatures counts, for each fragment, how often it has been seen. */
  method NumberChunks(document: nat, fragments: seq<Section>) returns (chunks: seq<Chunk>)
    ensures chunks == Numbered(document, fragments)
  {
    chunks := [];
    var occurrences: map<Section, nat> := map[];
    for i := 0 to |fragments|
      invariant |chunks| == i
      invariant forall k :: 0 <= k < i ==> chunks[k] == ChunkAt(document, fragments, k)
      invariant forall f :: (if f in occurrences then occurrences[f] else 0) == multiset(fragments[..i])[f]
    {
      var f := fragments[i];
      var occurrence := if f in occurrences then occurrences[f] else 0;
      assert fragments[..i + 1] == fragments[..i] + [f];
      occurrences := occurrences[f := occurrence + 1];
      chunks := chunks + [Chunk(ChunkId(document, f, occurrence), i, f.path, f.content)];
    }
  }

  // --- Conservation and bound ---

  function VisibleChunks(chunks: seq<Chunk>): string {
    if chunks == [] then [] else Squeeze(chunks[0].content) + VisibleChunks(chunks[1..])
  }

  lemma {:induction false} FragmentsVisible(path: seq<string>, texts: seq<string>)
    ensures Visible(Fragments(path, texts)) == Squeeze(Concat(texts))
  {
    if texts != [] {
      hide Squeeze;
      FragmentsVisible(path, texts[1..]);
      assert Fragments(path, texts)[1..] == Fragments(path, texts[1..]);
      ConcatHead(texts);
    } else {
      assert Fragments(path, texts) == [];
    }
  }

  lemma {:induction false} AllFragmentsVisible(sections: seq<Section>, limit: nat)
    requires limit >= 32
    ensures Visible(AllFragments(sections, limit)) == Visible(sections)
    ensures forall f :: f in AllFragments(sections, limit) ==> Fits(f.content, limit)
  {
    if sections != [] {
      hide Squeeze, SplitText, Fits;
      var texts := SplitText(sections[0].content, limit);
      AllFragmentsVisible(sections[1..], limit);
      SplitTextCorrect(sections[0].content, limit);
      FragmentsVisible(sections[0].path, texts);
      VisibleAppend(Fragments(sections[0].path, texts), AllFragments(sections[1..], limit));
    }
  }

  lemma {:induction false} NumberedVisible(document: nat, fragments: seq<Section>, chunks: seq<Chunk>)
    requires |chunks| == |fragments|
    requires forall i :: 0 <= i < |fragments| ==> chunks[i].content == fragments[i].content
    ensures VisibleChunks(chunks) == Visible(fragments)
  {
    if fragments != [] {
      NumberedVisible(document, fragments[1..], chunks[1..]);
    }
  }

  /** The conservation law: the chunks carry exactly the visible text of the document, in order,
      and every chunk is visible and no longer than the limit. */
  lemma ChunksConserve(source: Source, limit: nat)
    requires limit >= 32
    ensures VisibleChunks(Chunks(source, limit)) == Squeeze(source.content)
    ensures forall c :: c in Chunks(source, limit) ==> Fits(c.content, limit)
    ensures forall i :: 0 <= i < |Chunks(source, limit)| ==> Chunks(source, limit)[i].index == i
    ensures Chunks(source, limit) == [] <==> Squeeze(source.content) == []
  {
    hide Squeeze, Sections, AllFragments, Fits;
    var sections := SectionsOf(source);
    var fragments := AllFragments(sections, limit);
    AllFragmentsVisible(sections, limit);
    if source.format.MarkdownFormat? {
      SectionsConserve(source.title, source.content);
    } else {
      assert Visible(sections) == Squeeze(source.content) + Visible(sections[1..]);
    }
    NumberedVisible(source.document, fragments, Chunks(source, limit));
    if fragments != [] {
      FirstVisible(fragments, limit);
    }
  }

  lemma FirstVisible(fragments: seq<Section>, limit: nat)
    requires fragments != [] && Fits(fragments[0].content, limit)
    ensures Visible(fragments) != []
  {
    SqueezeVisible(fragments[0].content, 0);
  }

  // --- Identities ---

  lemma CountIncreases(fragments: seq<Section>, i: nat, j: nat)
    requires i < j <= |fragments|
    ensures multiset(fragments[..i])[fragments[i]] < multiset(fragments[..j])[fragments[i]]
  {
    assert fragments[..j] == fragments[..i] + [fragments[i]] + fragments[i + 1..j];
  }

  /** All chunk identities of a document are distinct. */
  lemma IdsDistinct(document: nat, fragments: seq<Section>, i: nat, j: nat)
    requires i < j < |fragments|
    ensures Numbered(document, fragments)[i].id != Numbered(document, fragments)[j].id
  {
    if fragments[i] == fragments[j] {
      CountIncreases(fragments, i, j);
    }
  }

  function Ids(chunks: seq<Chunk>): set<ChunkId> {
    set c | c in chunks :: c.id
  }

  lemma {:induction false} OccurrenceExists(fragments: seq<Section>, f: Section, n: nat) returns (i: nat)
    requires n < multiset(fragments)[f]
    ensures i < |fragments| && fragments[i] == f && multiset(fragments[..i])[f] == n
  {
    var last := |fragments| - 1;
    assert fragments == fragments[..last] + [fragments[last]];
    if n < multiset(fragments[..last])[f] {
      i := OccurrenceExists(fragments[..last], f, n);
      assert fragments[..last][..i] == fragments[..i];
    } else {
      i := last;
    }
  }

  /** An identity occurs exactly when its fragment occurs more often than its number. */
  lemma IdIffCounted(document: nat, fragments: seq<Section>, id: ChunkId)
    ensures id in Ids(Numbered(document, fragments))
       <==> id.document == document && id.occurrence < multiset(fragments)[id.fragment]
  {
    var chunks := Numbered(document, fragments);
    if id in Ids(chunks) {
      var i :| 0 <= i < |chunks| && chunks[i].id == id;
      CountIncreases(fragments, i, |fragments|);
      assert fragments[..|fragments|] == fragments;
    }
    if id.document == document && id.occurrence < multiset(fragments)[id.fragment] {
      var i := OccurrenceExists(fragments, id.fragment, id.occurrence);
      assert chunks[i].id == id && chunks[i] in chunks;
    }
  }

  /** The set of identities does not depend on the order of the fragments. */
  lemma IdsIgnoreOrder(document: nat, a: seq<Section>, b: seq<Section>)
    requires multiset(a) == multiset(b)
    ensures Ids(Numbered(document, a)) == Ids(Numbered(document, b))
  {
    forall id: ChunkId
      ensures id in Ids(Numbered(document, a)) <==> id in Ids(Numbered(document, b))
    {
      IdIffCounted(document, a, id);
      IdIffCounted(document, b, id);
    }
  }

  /** Inserting other sections leaves the identity of a fragment that occurs once unchanged. */
  lemma UniqueFragmentKeepsId(document: nat, a: seq<Section>, b: seq<Section>, i: nat, j: nat)
    requires i < |a| && j < |b| && a[i] == b[j]
    requires multiset(a)[a[i]] == 1 && multiset(b)[b[j]] == 1
    ensures Numbered(document, a)[i].id == Numbered(document, b)[j].id
  {
    CountIncreases(a, i, |a|);
    CountIncreases(b, j, |b|);
    assert a[..|a|] == a && b[..|b|] == b;
  }

  // --- Parsing one managed revision ---

  function RemoveBom(text: string): string {
    if text != [] && text[0] == '\U{feff}' then text[1..] else text
  }

  function UnifyNewlines(text: string): string
    decreases |text|
  {
    if text == [] then []
    else if text[0] == '\r' && |text| > 1 && text[1] == '\n' then ['\n'] + UnifyNewlines(text[2..])
    else [if text[0] == '\r' then '\n' else text[0]] + UnifyNewlines(text[1..])
  }

  function Normalize(text: string): string {
    UnifyNewlines(RemoveBom(text))
  }

  /** A text that parsing may store: visible, no byte order mark, no carriage return. */
  predicate IsNormalized(text: string) {
    && Strip(text) != []
    && (text != [] ==> text[0] != '\U{feff}')
    && '\r' !in text
  }

  lemma {:induction false} UnifyUnchanged(text: string)
    requires '\r' !in text
    ensures UnifyNewlines(text) == text
  {
    if text != [] {
      assert text[0] in text;
      UnifyUnchanged(text[1..]);
    }
  }

  function FirstVisibleLine(lines: seq<string>): string {
    if lines == [] then "" else if Strip(lines[0]) != [] then Strip(lines[0]) else FirstVisibleLine(lines[1..])
  }

  lemma {:induction false} UnifyRemoves(text: string)
    ensures '\r' !in UnifyNewlines(text) && |UnifyNewlines(text)| <= |text|
    decreases |text|
  {
    if text != [] {
      if text[0] == '\r' && |text| > 1 && text[1] == '\n' {
        UnifyRemoves(text[2..]);
      } else {
        UnifyRemoves(text[1..]);
      }
    }
  }

  /** A visible text is stored in normal form exactly when normalizing leaves it alone. */
  lemma NormalizedIsFixed(text: string)
    requires Strip(text) != []
    ensures Normalize(text) == text <==> IsNormalized(text)
  {
    hide Strip;
    UnifyRemoves(RemoveBom(text));
    if IsNormalized(text) {
      UnifyUnchanged(text);
    }
  }

  /** The first visible line is the level-one heading with the expected title. */
  predicate HasTitle(body: string, title: string) {
    var first := FirstVisibleLine(SplitLines(body));
    && "# " <= first && !("## " <= first)
    && StripRight(DropTrailing(StripRight(first[2..]), c => c == '#')) == title
  }

  /** The chunks of a stored body, or nothing when the body does not parse. */
  function ParseRevision(document: nat, title: string, format: Format, raw: string): (chunks: Option<seq<Chunk>>)
    ensures chunks.Some? ==> chunks.value != []
  {
    var body := Normalize(raw);
    if Strip(body) == [] || (format.MarkdownFormat? && !HasTitle(body, title)) then None
    else
      var chunks := Chunks(Source(document, title, format, body), MAX_CHUNK_CHARACTERS);
      if chunks == [] then None else Some(chunks)
  }

  /** Chunking a normalized body conserves that body, numbers its chunks from zero and gives distinct identities. */
  lemma ParseConserves(document: nat, title: string, format: Format, body: string)
    requires IsNormalized(body) && ParseRevision(document, title, format, body).Some?
    ensures var chunks := ParseRevision(document, title, format, body).value;
            && VisibleChunks(chunks) == Squeeze(body)
            && (forall c :: c in chunks ==> Fits(c.content, MAX_CHUNK_CHARACTERS))
            && (forall i :: 0 <= i < |chunks| ==> chunks[i].index == i)
            && (forall i, j :: 0 <= i < j < |chunks| ==> chunks[i].id != chunks[j].id)
  {
    hide Squeeze, Strip, AllFragments, HasTitle, SectionsOf;
    UnifyUnchanged(body);
    var source := Source(document, title, format, body);
    ChunksConserve(source, MAX_CHUNK_CHARACTERS);
    var fragments := AllFragments(SectionsOf(source), MAX_CHUNK_CHARACTERS);
    forall i, j | 0 <= i < j < |fragments|
      ensures Chunks(source, MAX_CHUNK_CHARACTERS)[i].id != Chunks(source, MAX_CHUNK_CHARACTERS)[j].id
    {
      IdsDistinct(document, fragments, i, j);
    }
  }
}

/**
  * Titles on section paths: whether the paths of a document's sections fit a record schema of one to sixteen titles of
  * one to 128 characters each is decided by the titles of its headings, and by its own title.
  */
module SectionTitles {
  import opened Text
  import opened Markdown
  import opened Splitting
  import Chunker

  // --- The condition on the text itself ---

  // What a section path may hold.
  predicate Named(p: string) {
    1 <= |p| <= 128
  }

  predicate PathNamed(path: seq<string>) {
    1 <= |path| <= 16 && forall p :: p in path ==> Named(p)
  }

  predicate PathsNamed(sections: seq<Section>) {
    forall s :: s in sections ==> PathNamed(s.path)
  }

  predicate AllVisible(sections: seq<Section>) {
    forall s :: s in sections ==> Squeeze(s.content) != []
  }

  /**
    * The title of a plain text, the title of every Markdown heading, and, when visible text stands before the first
    * heading, the title of the document.
    */
  predicate TitlesNamed(title: string, format: Chunker.Format, body: string) {
    if format.PlainText? then Named(title)
    else
      var lines := SplitLines(body);
      && (forall i :: 0 <= i < |lines| && MarkAt(lines, i).Some? ==> Named(MarkAt(lines, i).value.title))
      && (Squeeze(Concat(lines[..NextStart(MarksOf(lines), 0)])) != [] ==> Named(title))
  }

  lemma HeadNamed(path: seq<string>, texts: seq<string>, content: string)
    requires texts != []
    ensures PathsNamed(Chunker.Fragments(path, texts)) <==> PathsNamed([Section(path, content)])
  {
    hide Named;
    assert Chunker.Fragments(path, texts)[0] in Chunker.Fragments(path, texts);
    assert Section(path, content) in [Section(path, content)];
  }

  lemma {:induction false} FragmentsNamed(sections: seq<Section>, limit: nat)
    requires limit >= 32 && AllVisible(sections)
    ensures PathsNamed(Chunker.AllFragments(sections, limit)) <==> PathsNamed(sections)
  {
    hide SplitText, Squeeze, PathsNamed, Chunker.Fragments;
    if sections != [] {
      var head := sections[0];
      var texts := SplitText(head.content, limit);
      FragmentsNamed(sections[1..], limit);
      SplitTextCorrect(head.content, limit);
      assert texts != [] by {
        assert head in sections;
        NothingToShow();
      }
      HeadNamed(head.path, texts, head.content);
      PathsAppend(Chunker.Fragments(head.path, texts), Chunker.AllFragments(sections[1..], limit));
      assert sections == [head] + sections[1..];
      PathsAppend([head], sections[1..]);
    }
  }

  lemma NothingToShow()
    ensures Squeeze(Concat([])) == []
  {
  }

  lemma PathsAppend(a: seq<Section>, b: seq<Section>)
    ensures PathsNamed(a + b) <==> PathsNamed(a) && PathsNamed(b)
  {
    hide Named;
    forall s | PathsNamed(a + b) && (s in a || s in b)
      ensures PathNamed(s.path)
    {
      assert s in a + b;
    }
  }

  // --- Markdown: the paths name the headings ---

  lemma {:induction false} SectionsVisible(marks: Marks, lines: seq<string>, title: string, i: nat)
    requires i <= |lines| == |marks|
    ensures AllVisible(SectionsFrom(marks, lines, title, i))
    decreases |lines| - i
  {
    if i < |lines| {
      var j := NextStart(marks, i + 1);
      SectionsVisible(marks, lines, title, j);
      StripSqueeze(Join("\n", lines[i..j]));
      StripTwice(Join("\n", lines[i..j]));
      hide Squeeze, Strip;
    }
  }

  lemma StripTwice(s: string)
    ensures Squeeze(Strip(s)) == [] ==> Strip(s) == []
  {
    if Strip(s) != [] {
      SqueezeVisible(Strip(s), 0);
    }
  }

  // Every title on a path is the title of a heading.
  lemma {:induction false} ChainNamed(marks: Marks, i: nat)
    requires i < |marks| && marks[i].Some?
    requires forall k :: 0 <= k < |marks| && marks[k].Some? ==> Named(marks[k].value.title)
    ensures forall h :: h in Chain(marks, i) ==> Named(h.title)
    decreases i
  {
    hide Named;
    var parent := Nearest(marks, i, marks[i].value.level);
    if parent.Some? {
      ChainNamed(marks, parent.value);
    }
  }

  predicate Levelled(marks: Marks) {
    forall k :: 0 <= k < |marks| && marks[k].Some? ==> 1 <= marks[k].value.level <= 6
  }

  lemma HeadingPathNamed(marks: Marks, title: string, i: nat)
    requires i < |marks| && Levelled(marks)
    requires forall k :: 0 <= k < |marks| && marks[k].Some? ==> Named(marks[k].value.title)
    requires marks[i].None? ==> Named(title)
    ensures PathsNamed([Section(PathOf(marks, title, i), "")])
  {
    hide Named;
    if marks[i].Some? {
      ChainNamed(marks, i);
      ChainIncreases(marks, i);
      hide Chain;
      var chain := Chain(marks, i);
      assert |chain| - 1 < chain[|chain| - 1].level <= 6;
    }
  }

  lemma {:induction false} NamedSections(marks: Marks, lines: seq<string>, title: string, i: nat)
    requires i <= |lines| == |marks| && Levelled(marks)
    requires forall k :: 0 <= k < |marks| && marks[k].Some? ==> Named(marks[k].value.title)
    requires i == |lines| || marks[i].Some?
    ensures PathsNamed(SectionsFrom(marks, lines, title, i))
    decreases |lines| - i
  {
    hide Named, SectionOf, PathOf;
    if i < |lines| {
      var j := NextStart(marks, i + 1);
      NamedSections(marks, lines, title, j);
      HeadingPathNamed(marks, title, i);
      SectionHasPath(PathOf(marks, title, i), lines[i..j]);
      PathsAppend(SectionOf(PathOf(marks, title, i), lines[i..j]), SectionsFrom(marks, lines, title, j));
    }
  }

  lemma SectionHasPath(path: seq<string>, lines: seq<string>)
    ensures PathsNamed([Section(path, "")]) ==> PathsNamed(SectionOf(path, lines))
    ensures PathsNamed(SectionOf(path, lines)) && Squeeze(Concat(lines)) != [] ==> PathsNamed([Section(path, "")])
  {
    SectionOfVisible(path, lines);
    hide Strip, Squeeze, Join, Named;
    assert Section(path, "") in [Section(path, "")];
    var sections := SectionOf(path, lines);
    if sections != [] {
      assert sections[0] in sections && sections[0].path == path;
    }
  }

  lemma HeadingIsVisible(lines: seq<string>, i: nat, j: nat)
    requires i < j <= |lines| && HeadingOf(lines[i]).Some?
    ensures Squeeze(Concat(lines[i..j])) != []
  {
    assert lines[i][0] == '#';
    SqueezeVisible(lines[i], 0);
    assert lines[i..j][1..] == lines[i + 1..j];
    ConcatHead(lines[i..j]);
    hide Squeeze;
  }

  lemma {:induction false} SectionsName(lines: seq<string>, title: string, i: nat, k: nat)
    requires i <= k < |lines| && MarkAt(lines, k).Some? && (i < |lines| ==> MarkAt(lines, i).Some?)
    requires PathsNamed(SectionsFrom(MarksOf(lines), lines, title, i))
    ensures Named(MarkAt(lines, k).value.title)
    decreases |lines| - i
  {
    hide Named, SectionOf, MarkAt, HeadingOf;
    var marks := MarksOf(lines);
    var j := NextStart(marks, i + 1);
    PathsAppend(SectionOf(PathOf(marks, title, i), lines[i..j]), SectionsFrom(marks, lines, title, j));
    if k == i {
      MarkIsHeading(lines, i);
      HeadingIsVisible(lines, i, j);
      SectionHasPath(PathOf(marks, title, i), lines[i..j]);
      LastOfPath(marks, title, i);
    } else {
      assert j <= k;
      SectionsName(lines, title, j, k);
    }
  }

  lemma MarkIsHeading(lines: seq<string>, i: nat)
    requires i < |lines| && MarkAt(lines, i).Some?
    ensures HeadingOf(lines[i]).Some?
  {
    hide HeadingOf;
  }

  lemma LastOfPath(marks: Marks, title: string, i: nat)
    requires i < |marks| && marks[i].Some? && PathsNamed([Section(PathOf(marks, title, i), "")])
    ensures Named(marks[i].value.title)
  {
    hide Named;
    var section := Section(PathOf(marks, title, i), "");
    assert section in [section];
    assert section.path[|section.path| - 1] in section.path;
  }

  lemma MarksAreLevelled(lines: seq<string>)
    ensures Levelled(MarksOf(lines))
  {
    hide HeadingOf;
  }

  lemma MarkdownNamed(title: string, content: string)
    ensures PathsNamed(Sections(title, content)) <==> TitlesNamed(title, Chunker.MarkdownFormat, content)
  {
    hide Named, SectionOf, MarkAt, Squeeze;
    var lines := SplitLines(content);
    var marks := MarksOf(lines);
    MarksAreLevelled(lines);
    var first := NextStart(marks, 0);
    PreambleIs(marks, lines, title);
    SectionHasPath([title], lines[..first]);
    PathsAppend(SectionOf([title], lines[..first]), SectionsFrom(marks, lines, title, first));
    TitleAlone(title);
    if PathsNamed(SectionsFrom(marks, lines, title, first)) {
      forall k | 0 <= k < |lines| && MarkAt(lines, k).Some?
        ensures Named(MarkAt(lines, k).value.title)
      {
        assert first <= k;
        SectionsName(lines, title, first, k);
      }
    }
    if TitlesNamed(title, Chunker.MarkdownFormat, content) {
      NamedSections(marks, lines, title, first);
      SectionOfVisible([title], lines[..first]);
      NothingVisible(SectionOf([title], lines[..first]));
    }
  }

  lemma TitleAlone(title: string)
    ensures PathsNamed([Section([title], "")]) <==> Named(title)
  {
    assert Section([title], "") in [Section([title], "")] && title in [title];
  }

  // A preamble without visible text is no section.
  lemma NothingVisible(sections: seq<Section>)
    requires |sections| <= 1
    ensures Visible(sections) == [] && AllVisible(sections) ==> sections == []
  {
    hide Squeeze;
    if sections != [] {
      assert sections[0] in sections;
      assert Visible(sections) == Squeeze(sections[0].content) + Visible(sections[1..]);
    }
  }

  lemma PreambleIs(marks: Marks, lines: seq<string>, title: string)
    requires |lines| == |marks|
    ensures var first := NextStart(marks, 0);
            SectionsFrom(marks, lines, title, 0)
            == SectionOf([title], lines[..first]) + SectionsFrom(marks, lines, title, first)
    ensures var first := NextStart(marks, 0);
            AllVisible(SectionOf([title], lines[..first])) && |SectionOf([title], lines[..first])| <= 1
  {
    var first := NextStart(marks, 0);
    StripTwice(Join("\n", lines[..first]));
    hide Strip, Squeeze;
    if first == 0 {
      assert Join("\n", lines[..0]) == [];
      BlankIsNoSection(title);
    } else {
      assert lines[0..first] == lines[..first];
      assert first == NextStart(marks, 1);
    }
  }

  lemma BlankIsNoSection(title: string)
    ensures SectionOf([title], []) == []
  {
  }

  lemma SourceNamed(source: Chunker.Source)
    requires Strip(source.content) != []
    ensures AllVisible(Chunker.SectionsOf(source))
    ensures PathsNamed(Chunker.SectionsOf(source)) <==> TitlesNamed(source.title, source.format, source.content)
  {
    StripSqueeze(source.content);
    hide Squeeze, Strip, Named, SplitLines;
    if source.format.MarkdownFormat? {
      SectionsVisible(MarksOf(SplitLines(source.content)), SplitLines(source.content), source.title, 0);
      MarkdownNamed(source.title, source.content);
    } else {
      var section := Section([source.title], source.content);
      assert section in [section] && source.title in section.path;
    }
  }
}

/** Markdown lexing and sectioning: ATX headings, code fences and the heading stack. */
module Markdown {
  import opened Wrappers
  import opened Text

  datatype Heading = Heading(level: nat, title: string)

  datatype FenceMark = FenceMark(mark: char, length: nat)

  datatype Section = Section(path: seq<string>, content: string)

  // --- One line ---

  function RunLength(s: string, c: char): (n: nat)
    ensures n <= |s|
    ensures forall k :: 0 <= k < n ==> s[k] == c
    ensures n < |s| ==> s[n] != c
  {
    if s != [] && s[0] == c then 1 + RunLength(s[1..], c) else 0
  }

  function DropBlanks(s: string): string {
    if s != [] && IsBlank(s[0]) then DropBlanks(s[1..]) else s
  }

  function DropTrailing(s: string, drop: char -> bool): string {
    if s != [] && drop(s[|s| - 1]) then DropTrailing(s[..|s| - 1], drop) else s
  }

  // Closing hashes count only when a blank stands before them.
  function DropClosingHashes(s: string): string {
    var open := DropTrailing(s, c => c == '#');
    if |open| < |s| && open != [] && IsBlank(open[|open| - 1])
    then DropTrailing(open, c => IsBlank(c)) else s
  }

  /** One to six hashes, a blank, and at least one further character. */
  function HeadingOf(line: string): (h: Option<Heading>)
    ensures h.Some? ==> 1 <= h.value.level <= 6
  {
    var level := RunLength(line, '#');
    if 1 <= level <= 6 && level + 2 <= |line| && IsBlank(line[level]) then
      var text := DropTrailing(DropBlanks(line[level..]), c => IsBlank(c));
      Some(Heading(level, Strip(DropClosingHashes(text))))
    else None
  }

  /** At least three backticks or tildes after optional blanks; anything may follow. */
  function FenceOf(line: string): Option<FenceMark> {
    var text := DropBlanks(line);
    if RunLength(text, '`') >= 3 then Some(FenceMark('`', RunLength(text, '`')))
    else if RunLength(text, '~') >= 3 then Some(FenceMark('~', RunLength(text, '~')))
    else None
  }

  // --- Fences and section starts over a whole document ---

  function FenceStep(open: Option<FenceMark>, line: string): Option<FenceMark> {
    var here := FenceOf(line);
    if open.None? then here
    else if here.Some? && here.value.mark == open.value.mark && here.value.length >= open.value.length then None
    else open
  }

  function FenceBefore(lines: seq<string>, i: nat): Option<FenceMark>
    requires i <= |lines|
  {
    if i == 0 then None else FenceStep(FenceBefore(lines, i - 1), lines[i - 1])
  }

  /** The heading that a line opens a section with: only outside every fence. */
  function MarkAt(lines: seq<string>, i: nat): (m: Option<Heading>)
    requires i < |lines|
    ensures m.Some? ==> 1 <= m.value.level <= 6
  {
    if FenceBefore(lines, i).None? && FenceOf(lines[i]).None? then HeadingOf(lines[i]) else None
  }

  // A fence closes on the same mark, at least as long.
  predicate Closes(line: string, open: FenceMark) {
    FenceOf(line).Some? && FenceOf(line).value.mark == open.mark && FenceOf(line).value.length >= open.length
  }

  // Line j opens a fence that no line before line i closes.
  predicate Unclosed(lines: seq<string>, j: nat, i: nat)
    requires i <= |lines|
  {
    && j < i && FenceBefore(lines, j).None? && FenceOf(lines[j]).Some?
    && forall k :: j < k < i ==> !Closes(lines[k], FenceOf(lines[j]).value)
  }

  lemma {:induction false} UnclosedIsOpen(lines: seq<string>, j: nat, i: nat)
    requires i <= |lines| && Unclosed(lines, j, i)
    ensures FenceBefore(lines, i) == FenceOf(lines[j])
  {
    hide FenceOf;
    if j < i - 1 {
      UnclosedIsOpen(lines, j, i - 1);
      assert !Closes(lines[i - 1], FenceOf(lines[j]).value);
    }
  }

  lemma {:induction false} OpenIsUnclosed(lines: seq<string>, i: nat) returns (j: nat)
    requires i <= |lines| && FenceBefore(lines, i).Some?
    ensures Unclosed(lines, j, i)
  {
    hide FenceOf;
    if FenceBefore(lines, i - 1).None? {
      j := i - 1;
    } else {
      j := OpenIsUnclosed(lines, i - 1);
      UnclosedIsOpen(lines, j, i - 1);
    }
  }

  /** A line is inside a fence exactly when some earlier line opened one that is still unclosed. */
  lemma InsideIffUnclosed(lines: seq<string>, i: nat)
    requires i <= |lines|
    ensures FenceBefore(lines, i).Some? <==> exists j: nat :: Unclosed(lines, j, i)
  {
    hide FenceBefore, FenceOf;
    if FenceBefore(lines, i).Some? {
      var j := OpenIsUnclosed(lines, i);
    }
    if j: nat :| Unclosed(lines, j, i) {
      UnclosedHasFence(lines, j, i);
      UnclosedIsOpen(lines, j, i);
    }
  }

  lemma UnclosedHasFence(lines: seq<string>, j: nat, i: nat)
    requires i <= |lines| && Unclosed(lines, j, i)
    ensures FenceOf(lines[j]).Some?
  {
  }

  /** No line inside a fence, and no fence line, starts a section. */
  lemma FencedLinesStartNothing(lines: seq<string>, i: nat)
    requires i < |lines|
    ensures MarkAt(lines, i).Some? ==>
            HeadingOf(lines[i]) == MarkAt(lines, i) && FenceOf(lines[i]).None?
            && forall j: nat :: !Unclosed(lines, j, i)
    ensures HeadingOf(lines[i]).Some? && FenceOf(lines[i]).None? && (forall j: nat :: !Unclosed(lines, j, i)) ==>
            MarkAt(lines, i).Some?
  {
    hide FenceOf, FenceBefore, HeadingOf, Unclosed;
    InsideIffUnclosed(lines, i);
  }

  type Marks = seq<Option<Heading>>

  function MarksOf(lines: seq<string>): (marks: Marks)
    ensures |marks| == |lines|
    ensures forall i :: 0 <= i < |lines| ==> marks[i] == MarkAt(lines, i)
  {
    seq(|lines|, i requires 0 <= i < |lines| => MarkAt(lines, i))
  }

  predicate NoStart(marks: Marks, from: nat, to: nat)
    requires to <= |marks|
  {
    forall k :: from <= k < to ==> marks[k].None?
  }

  // --- The reference meaning of a section path ---

  predicate IsNearest(marks: Marks, i: nat, level: nat, j: Option<nat>)
    requires i <= |marks|
  {
    && (j.Some? ==> j.value < i && marks[j.value].Some? && marks[j.value].value.level < level)
    && (forall k :: (if j.Some? then j.value + 1 else 0) <= k < i && marks[k].Some? ==> marks[k].value.level >= level)
  }

  /** The nearest section start before line i whose level is smaller. */
  function Nearest(marks: Marks, i: nat, level: nat): (j: Option<nat>)
    requires i <= |marks|
    ensures IsNearest(marks, i, level, j)
  {
    if i == 0 then None
    else if marks[i - 1].Some? && marks[i - 1].value.level < level then Some(i - 1)
    else Nearest(marks, i - 1, level)
  }

  /** The headings that enclose a section start, outermost first, ending with itself. */
  function Chain(marks: Marks, i: nat): (chain: seq<Heading>)
    requires i < |marks| && marks[i].Some?
    ensures chain != [] && chain[|chain| - 1] == marks[i].value
    decreases i
  {
    Above(marks, i, marks[i].value.level) + [marks[i].value]
  }

  function Above(marks: Marks, i: nat, level: nat): seq<Heading>
    requires i <= |marks|
    decreases i, 0
  {
    var parent := Nearest(marks, i, level);
    if parent.None? then [] else Chain(marks, parent.value)
  }

  function Titles(chain: seq<Heading>): (titles: seq<string>)
    ensures |titles| == |chain|
    ensures forall k :: 0 <= k < |chain| ==> titles[k] == chain[k].title
  {
    seq(|chain|, k requires 0 <= k < |chain| => chain[k].title)
  }

  function PathOf(marks: Marks, title: string, i: nat): seq<string>
    requires i < |marks|
  {
    if marks[i].Some? then Titles(Chain(marks, i)) else [title]
  }

  function NextStart(marks: Marks, i: nat): (j: nat)
    requires i <= |marks|
    ensures i <= j <= |marks|
    ensures NoStart(marks, i, j)
    ensures j < |marks| ==> marks[j].Some?
    decreases |marks| - i
  {
    if i == |marks| || marks[i].Some? then i else NextStart(marks, i + 1)
  }

  function SectionOf(path: seq<string>, lines: seq<string>): seq<Section> {
    var content := Strip(Join("\n", lines));
    if content == [] then [] else [Section(path, content)]
  }

  /** The sections from line i on: each start runs to the next one, blank sections are dropped. */
  function SectionsFrom(marks: Marks, lines: seq<string>, title: string, i: nat): seq<Section>
    requires i <= |lines| == |marks|
    decreases |lines| - i
  {
    if i == |lines| then []
    else
      var j := NextStart(marks, i + 1);
      SectionOf(PathOf(marks, title, i), lines[i..j]) + SectionsFrom(marks, lines, title, j)
  }

  function Sections(title: string, content: string): seq<Section> {
    var lines := SplitLines(content);
    SectionsFrom(MarksOf(lines), lines, title, 0)
  }

  // --- Properties of the reference ---

  /** Levels strictly increase along a section path, so a path has at most six titles. */
  lemma {:induction false} ChainIncreases(marks: Marks, i: nat)
    requires i < |marks| && marks[i].Some?
    requires forall k :: 0 <= k < |marks| && marks[k].Some? ==> 1 <= marks[k].value.level <= 6
    ensures forall a, b :: 0 <= a < b < |Chain(marks, i)| ==> Chain(marks, i)[a].level < Chain(marks, i)[b].level
    ensures forall a :: 0 <= a < |Chain(marks, i)| ==> a < Chain(marks, i)[a].level <= 6
    decreases i
  {
    var parent := Nearest(marks, i, marks[i].value.level);
    if parent.Some? {
      ChainIncreases(marks, parent.value);
      var outer := Chain(marks, parent.value);
      assert Chain(marks, i) == outer + [marks[i].value];
      assert outer[|outer| - 1].level < marks[i].value.level;
    }
  }

  /** The visible text of a list of sections. */
  function Visible(sections: seq<Section>): string {
    if sections == [] then [] else Squeeze(sections[0].content) + Visible(sections[1..])
  }

  lemma {:induction false} VisibleAppend(a: seq<Section>, b: seq<Section>)
    ensures Visible(a + b) == Visible(a) + Visible(b)
  {
    if a == [] {
      assert a + b == b;
    } else {
      assert (a + b)[1..] == a[1..] + b;
      VisibleAppend(a[1..], b);
      Associative(Squeeze(a[0].content), Visible(a[1..]), Visible(b));
    }
  }

  lemma SectionOfVisible(path: seq<string>, lines: seq<string>)
    ensures Visible(SectionOf(path, lines)) == Squeeze(Concat(lines))
  {
    StripSqueeze(Join("\n", lines));
    assert Squeeze("\n") == [] by { SqueezeSpaces("\n"); }
    JoinSqueeze("\n", lines);
  }

  lemma SqueezeSplit(lines: seq<string>, i: nat, j: nat)
    requires i <= j <= |lines|
    ensures Squeeze(Concat(lines[i..])) == Squeeze(Concat(lines[i..j])) + Squeeze(Concat(lines[j..]))
  {
    assert lines[i..] == lines[i..j] + lines[j..];
    ConcatAppend(lines[i..j], lines[j..]);
    SqueezeConcat(Concat(lines[i..j]), Concat(lines[j..]));
  }

  lemma {:induction false} SectionsFromVisible(marks: Marks, lines: seq<string>, title: string, i: nat)
    requires i <= |lines| == |marks|
    ensures Visible(SectionsFrom(marks, lines, title, i)) == Squeeze(Concat(lines[i..]))
    decreases |lines| - i
  {
    if i < |lines| {
      var j := NextStart(marks, i + 1);
      SectionsFromVisible(marks, lines, title, j);
      SectionOfVisible(PathOf(marks, title, i), lines[i..j]);
      VisibleAppend(SectionOf(PathOf(marks, title, i), lines[i..j]), SectionsFrom(marks, lines, title, j));
      SqueezeSplit(lines, i, j);
    }
  }

  /** Sectioning neither loses, duplicates nor reorders a visible character. */
  lemma SectionsConserve(title: string, content: string)
    ensures Visible(Sections(title, content)) == Squeeze(content)
  {
    var lines := SplitLines(content);
    SectionsFromVisible(MarksOf(lines), lines, title, 0);
    assert lines[0..] == lines;
    SplitLinesSqueeze(content);
  }

  // --- The heading stack computes the reference path ---

  function PopTo(headings: seq<Heading>, level: nat): seq<Heading> {
    if headings != [] && headings[|headings| - 1].level >= level
    then PopTo(headings[..|headings| - 1], level) else headings
  }

  lemma {:induction false} NearestSkips(marks: Marks, i: nat, high: nat, low: nat)
    requires i <= |marks| && low <= high
    ensures Nearest(marks, i, high).None? ==> Nearest(marks, i, low).None?
    ensures Nearest(marks, i, high).Some? ==>
            Nearest(marks, i, low) == Nearest(marks, Nearest(marks, i, high).value + 1, low)
  {
    if i > 0 && !(marks[i - 1].Some? && marks[i - 1].value.level < high) {
      NearestSkips(marks, i - 1, high, low);
    }
  }

  lemma {:induction false} NearestNoStart(marks: Marks, from: nat, to: nat, level: nat)
    requires from <= to <= |marks| && NoStart(marks, from, to)
    ensures Nearest(marks, to, level) == Nearest(marks, from, level)
  {
    if from < to {
      NearestNoStart(marks, from, to - 1, level);
    }
  }

  /** Popping the stack of the last section leaves exactly the headings that enclose the next one. */
  lemma {:induction false} PopIsAbove(marks: Marks, last: nat, i: nat, level: nat)
    requires last < i <= |marks| && marks[last].Some? && NoStart(marks, last + 1, i)
    ensures PopTo(Chain(marks, last), level) == Above(marks, i, level)
    decreases last
  {
    NearestNoStart(marks, last + 1, i, level);
    var own := marks[last].value.level;
    if own >= level {
      var chain := Chain(marks, last);
      assert chain[..|chain| - 1] == Above(marks, last, own);
      NearestSkips(marks, last, own, level);
      var parent := Nearest(marks, last, own);
      if parent.Some? {
        PopIsAbove(marks, parent.value, parent.value + 1, level);
      }
    }
  }

  method PopHeadings(stack: seq<Heading>, level: nat) returns (headings: seq<Heading>)
    ensures headings == PopTo(stack, level)
  {
    headings := stack;
    while headings != [] && headings[|headings| - 1].level >= level
      invariant PopTo(headings, level) == PopTo(stack, level)
    {
      headings := headings[..|headings| - 1];
    }
  }

  // What the scanner's variables mean before line i, when the open section began at `start`.
  ghost predicate Scanned(marks: Marks, title: string, start: nat, i: nat, headings: seq<Heading>, path: seq<string>) {
    && start <= i <= |marks| && NoStart(marks, start + 1, i)
    && (i == 0 ==> headings == [] && path == [title])
    && (i > 0 ==> start < i && path == PathOf(marks, title, start))
    && (i > 0 ==> headings == if marks[start].Some? then Chain(marks, start) else [])
    && (start == 0 || marks[start].Some?)
  }

  lemma SectionsStep(marks: Marks, lines: seq<string>, title: string, start: nat, i: nat)
    requires start < i <= |lines| == |marks| && NoStart(marks, start + 1, i)
    requires i == |lines| || marks[i].Some?
    ensures SectionsFrom(marks, lines, title, start)
         == SectionOf(PathOf(marks, title, start), lines[start..i]) + SectionsFrom(marks, lines, title, i)
  {
    var j := NextStart(marks, start + 1);
    assert j == i;
  }

  lemma NextHeading(marks: Marks, title: string, start: nat, i: nat, headings: seq<Heading>, path: seq<string>)
    requires i < |marks| && Scanned(marks, title, start, i, headings, path) && marks[i].Some?
    ensures PopTo(headings, marks[i].value.level) + [marks[i].value] == Chain(marks, i)
  {
    if i > 0 {
      if marks[start].Some? {
        PopIsAbove(marks, start, i, marks[i].value.level);
      } else {
        NearestNoStart(marks, 0, i, marks[i].value.level);
      }
    }
  }

  lemma SectionEnds(marks: Marks, lines: seq<string>, title: string, start: nat, i: nat, headings: seq<Heading>,
                    path: seq<string>)
    requires |lines| == |marks| && Scanned(marks, title, start, i, headings, path)
    requires i == |lines| || marks[i].Some?
    ensures SectionsFrom(marks, lines, title, start)
         == SectionOf(path, lines[start..i]) + SectionsFrom(marks, lines, title, i)
  {
    if i > 0 {
      SectionsStep(marks, lines, title, start, i);
    } else {
      assert Join("\n", lines[start..i]) == [];
    }
  }

  lemma Unscanned(marks: Marks, lines: seq<string>, title: string)
    requires |lines| == |marks|
    ensures Scanned(marks, title, 0, 0, [], [title])
    ensures SectionsFrom(marks, lines, title, |lines|) == []
  {
  }

  lemma StaysScanned(marks: Marks, title: string, start: nat, i: nat, headings: seq<Heading>, path: seq<string>)
    requires i < |marks| && Scanned(marks, title, start, i, headings, path) && marks[i].None?
    ensures Scanned(marks, title, start, i + 1, headings, path)
  {
    if i == 0 {
      assert start == 0;
    }
  }

  lemma NewlyScanned(marks: Marks, title: string, i: nat)
    requires i < |marks| && marks[i].Some?
    ensures Scanned(marks, title, i, i + 1, Chain(marks, i), Titles(Chain(marks, i)))
  {
  }

  /** The scanner of lines: one pass with a fence flag and a heading stack. */
  method MarkdownSections(title: string, content: string) returns (sections: seq<Section>)
    ensures sections == Sections(title, content)
  {
    hide FenceOf, HeadingOf, SplitLines, SectionOf, Chain, Scanned, SectionsFrom, Titles, PopTo;
    var lines := SplitLines(content);
    ghost var marks := MarksOf(lines);
    var headings: seq<Heading> := [];
    var currentPath := [title];
    var currentLines: seq<string> := [];
    var fence: Option<FenceMark> := None;
    sections := [];
    ghost var start := 0;
    Unscanned(marks, lines, title);
    for i := 0 to |lines|
      invariant fence == FenceBefore(lines, i)
      invariant start <= i && Scanned(marks, title, start, i, headings, currentPath)
      invariant currentLines == lines[start..i]
      invariant sections + SectionsFrom(marks, lines, title, start) == SectionsFrom(marks, lines, title, 0)
    {
      var line := lines[i];
      var mark := FenceOf(line);
      assert marks[i] == MarkAt(lines, i);
      if fence.Some? {
        StaysScanned(marks, title, start, i, headings, currentPath);
        currentLines := currentLines + [line];
        if mark.Some? && mark.value.mark == fence.value.mark && mark.value.length >= fence.value.length {
          fence := None;
        }
        continue;
      }
      if mark.Some? {
        StaysScanned(marks, title, start, i, headings, currentPath);
        fence := mark;
        currentLines := currentLines + [line];
        continue;
      }
      var heading := HeadingOf(line);
      if heading.None? {
        StaysScanned(marks, title, start, i, headings, currentPath);
        currentLines := currentLines + [line];
        continue;
      }
      SectionEnds(marks, lines, title, start, i, headings, currentPath);
      NextHeading(marks, title, start, i, headings, currentPath);
      NewlyScanned(marks, title, i);
      sections := sections + SectionOf(currentPath, currentLines);
      var open := PopHeadings(headings, heading.value.level);
      headings := open + [heading.value];
      currentPath := Titles(headings);
      currentLines := [line];
      start := i;
    }
    SectionEnds(marks, lines, title, start, |lines|, headings, currentPath);
    sections := sections + SectionOf(currentPath, currentLines);
  }
}

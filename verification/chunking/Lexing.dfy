/** Which lines are headings and fences. */
module Lexing {
  import opened Wrappers
  import opened Text
  import opened Markdown

  // --- Shapes of a line ---

  predicate AllBlank(s: string) {
    forall i :: 0 <= i < |s| ==> IsBlank(s[i])
  }

  predicate AllHashes(s: string) {
    forall i :: 0 <= i < |s| ==> s[i] == '#'
  }

  // A text that blanks neither begin nor end.
  predicate Trimmed(s: string) {
    s != [] && !IsBlank(s[0]) && !IsBlank(s[|s| - 1])
  }

  // The text ends with blanks and hashes.
  predicate EndsClosed(s: string) {
    exists k :: 0 < k < |s| && IsBlank(s[k - 1]) && AllHashes(s[k..])
  }

  // --- White space at the ends ---

  lemma {:induction false} DropTrailingIs(a: string, b: string, drop: char -> bool)
    requires forall i :: 0 <= i < |b| ==> drop(b[i])
    requires a == [] || !drop(a[|a| - 1])
    ensures DropTrailing(a + b, drop) == a
    decreases |b|
  {
    if b == [] {
      assert a + b == a;
    } else {
      assert (a + b)[..|a + b| - 1] == a + b[..|b| - 1];
      DropTrailingIs(a, b[..|b| - 1], drop);
    }
  }

  lemma {:induction false} DropBlanksIs(a: string, b: string)
    requires AllBlank(a) && (b == [] || !IsBlank(b[0]))
    ensures DropBlanks(a + b) == b
    decreases |a|
  {
    if a == [] {
      assert a + b == b;
    } else {
      assert (a + b)[1..] == a[1..] + b;
      DropBlanksIs(a[1..], b);
    }
  }

  lemma {:induction false} StripLeftIs(a: string, b: string)
    requires (forall i :: 0 <= i < |a| ==> IsSpace(a[i])) && (b == [] || !IsSpace(b[0]))
    ensures StripLeft(a + b) == b
    decreases |a|
  {
    if a == [] {
      assert a + b == b;
    } else {
      assert (a + b)[1..] == a[1..] + b;
      StripLeftIs(a[1..], b);
    }
  }

  lemma {:induction false} StripRightIs(a: string, b: string)
    requires (forall i :: 0 <= i < |b| ==> IsSpace(b[i])) && (a == [] || !IsSpace(a[|a| - 1]))
    ensures StripRight(a + b) == a
    decreases |b|
  {
    if b == [] {
      assert a + b == a;
    } else {
      assert (a + b)[..|a + b| - 1] == a + b[..|b| - 1];
      StripRightIs(a, b[..|b| - 1]);
    }
  }

  /** Stripping removes exactly the white space at both ends. */
  lemma StripIs(before: string, s: string, after: string)
    requires forall i :: 0 <= i < |before| ==> IsSpace(before[i])
    requires forall i :: 0 <= i < |after| ==> IsSpace(after[i])
    requires s == [] || (!IsSpace(s[0]) && !IsSpace(s[|s| - 1]))
    ensures Strip(before + s + after) == s
  {
    if s == [] {
      StripLeftIs(before + after, []);
      assert before + s + after == before + after + [];
    } else {
      StripLeftIs(before, s + after);
      assert before + s + after == before + (s + after);
      StripRightIs(s, after);
    }
  }

  // --- Headings ---

  lemma {:induction false} RunLengthIs(s: string, c: char, n: nat)
    requires n <= |s| && (forall i :: 0 <= i < n ==> s[i] == c) && (n == |s| || s[n] != c)
    ensures RunLength(s, c) == n
  {
    if n > 0 {
      RunLengthIs(s[1..], c, n - 1);
    }
  }

  // One to six hashes, a blank, and a further character.
  predicate IsHeadingLine(line: string, n: nat) {
    1 <= n <= 6 && n + 2 <= |line| && AllHashes(line[..n]) && IsBlank(line[n])
  }

  /** A line is a heading exactly when it has this shape, and the level is the number of its hashes. */
  lemma HeadingIffShaped(line: string)
    ensures HeadingOf(line).Some? <==> exists n: nat :: IsHeadingLine(line, n)
    ensures forall n: nat :: IsHeadingLine(line, n) ==> HeadingOf(line).Some? && HeadingOf(line).value.level == n
  {
    hide DropTrailing, DropBlanks, DropClosingHashes, Strip;
    forall n: nat | IsHeadingLine(line, n)
      ensures RunLength(line, '#') == n
    {
      assert forall i :: 0 <= i < n ==> line[..n][i] == line[i];
      RunLengthIs(line, '#', n);
    }
    if HeadingOf(line).Some? {
      assert IsHeadingLine(line, RunLength(line, '#'));
    }
  }

  lemma BodyOf(hashes: string, blanks: string, body: string, tail: string)
    requires 1 <= |hashes| <= 6 && AllHashes(hashes) && blanks != [] && AllBlank(blanks) && AllBlank(tail)
    requires Trimmed(body)
    ensures var line := hashes + blanks + body + tail;
            HeadingOf(line) == Some(Heading(|hashes|, Strip(DropClosingHashes(body))))
  {
    hide DropClosingHashes, Strip;
    var line := hashes + blanks + body + tail;
    RunLengthIs(line, '#', |hashes|);
    assert line[|hashes|..] == blanks + (body + tail);
    DropBlanksIs(blanks, body + tail);
    DropTrailingIs(body, tail, c => IsBlank(c));
  }

  lemma ClosedBody(title: string, blanks: string, closing: string)
    requires Trimmed(title) && blanks != [] && AllBlank(blanks) && closing != [] && AllHashes(closing)
    ensures DropClosingHashes(title + blanks + closing) == title
  {
    var open := title + blanks;
    DropTrailingIs(open, closing, c => c == '#');
    DropTrailingIs(title, blanks, c => IsBlank(c));
  }

  lemma OpenBody(body: string)
    requires Trimmed(body) && !EndsClosed(body)
    ensures DropClosingHashes(body) == body
  {
    var open := DropTrailing(body, c => c == '#');
    DropTrailingSplits(body, c => c == '#');
    assert AllHashes(body[|open|..]);
  }

  lemma {:induction false} DropTrailingSplits(s: string, drop: char -> bool)
    ensures DropTrailing(s, drop) <= s
    ensures forall i :: |DropTrailing(s, drop)| <= i < |s| ==> drop(s[i])
    ensures DropTrailing(s, drop) == [] || !drop(DropTrailing(s, drop)[|DropTrailing(s, drop)| - 1])
    decreases |s|
  {
    if s != [] && drop(s[|s| - 1]) {
      DropTrailingSplits(s[..|s| - 1], drop);
    }
  }

  /**
    * For one to six hashes, any blanks, any title that does not end in a closing run, and any trailing blanks: the line
    * is a heading of that level with that title, stripped.
    */
  lemma HeadingReads(hashes: string, blanks: string, title: string, tail: string)
    requires 1 <= |hashes| <= 6 && AllHashes(hashes) && blanks != [] && AllBlank(blanks) && AllBlank(tail)
    requires Trimmed(title) && !EndsClosed(title)
    ensures HeadingOf(hashes + blanks + title + tail) == Some(Heading(|hashes|, Strip(title)))
    ensures !IsSpace(title[0]) && !IsSpace(title[|title| - 1]) ==> Strip(title) == title
  {
    BodyOf(hashes, blanks, title, tail);
    OpenBody(title);
    if !IsSpace(title[0]) && !IsSpace(title[|title| - 1]) {
      StripIs([], title, []);
      assert [] + title + [] == title;
    }
  }

  /** A closing run of hashes after a blank is dropped with its blanks, whatever the title before it. */
  lemma ClosedHeadingReads(hashes: string, blanks: string, title: string, gap: string, closing: string, tail: string)
    requires 1 <= |hashes| <= 6 && AllHashes(hashes) && blanks != [] && AllBlank(blanks) && AllBlank(tail)
    requires Trimmed(title) && gap != [] && AllBlank(gap) && closing != [] && AllHashes(closing)
    ensures HeadingOf(hashes + blanks + (title + gap + closing) + tail) == Some(Heading(|hashes|, Strip(title)))
  {
    ClosedBody(title, gap, closing);
    BodyOf(hashes, blanks, title + gap + closing, tail);
  }

  /** A heading of nothing but blanks has the empty title. */
  lemma BareHeadingReads(hashes: string, blanks: string)
    requires 1 <= |hashes| <= 6 && AllHashes(hashes) && |blanks| >= 2 && AllBlank(blanks)
    ensures HeadingOf(hashes + blanks) == Some(Heading(|hashes|, ""))
  {
    var line := hashes + blanks;
    RunLengthIs(line, '#', |hashes|);
    assert line[|hashes|..] == blanks + [];
    DropBlanksIs(blanks, []);
    assert DropTrailing([], c => IsBlank(c)) == [];
  }

  /** These are all headings: what follows the hashes is blanks, or blanks, a title, an optional closing and blanks. */
  lemma HeadingSplits(line: string, n: nat) returns (blanks: string, body: string, tail: string)
    requires IsHeadingLine(line, n)
    ensures line == line[..n] + blanks + body + tail && blanks != [] && AllBlank(blanks) && AllBlank(tail)
    ensures body == [] || Trimmed(body)
  {
    var rest := line[n..];
    var i := BlankEnd(rest);
    blanks := rest[..i];
    DropTrailingSplits(rest[i..], c => IsBlank(c));
    body := DropTrailing(rest[i..], c => IsBlank(c));
    tail := rest[i..][|body|..];
    assert rest == blanks + (body + tail);
  }

  lemma {:induction false} BlankEnd(s: string) returns (i: nat)
    ensures i <= |s| && AllBlank(s[..i]) && (i < |s| ==> !IsBlank(s[i]))
    ensures s != [] && IsBlank(s[0]) ==> i > 0
  {
    i := 0;
    if s != [] && IsBlank(s[0]) {
      var j := BlankEnd(s[1..]);
      i := j + 1;
      assert s[..i] == [s[0]] + s[1..][..j];
    }
  }

  // --- Fences ---

  lemma SameBlanks(line: string, i: nat, j: nat)
    requires i < |line| && AllBlank(line[..i]) && !IsBlank(line[i])
    requires j <= |line| && AllBlank(line[..j]) && (j < |line| ==> !IsBlank(line[j]))
    ensures i == j
  {
    assert forall k :: 0 <= k < i ==> IsBlank(line[..i][k]);
    assert forall k :: 0 <= k < j ==> IsBlank(line[..j][k]);
    assert forall k :: 0 <= k < i ==> line[..i][k] == line[k];
    assert forall k :: 0 <= k < j ==> line[..j][k] == line[k];
  }

  // Optional blanks, then a run of backticks or tildes of a length of at least three.
  predicate IsFenceLine(line: string, mark: char, length: nat, at: nat) {
    && at + length <= |line| && AllBlank(line[..at]) && mark in {'`', '~'} && length >= 3
    && (forall i :: at <= i < at + length ==> line[i] == mark)
    && (at + length == |line| || line[at + length] != mark)
  }

  /** A line is a fence exactly when it has this shape; anything may follow the run. */
  lemma FenceIffShaped(line: string, mark: char, length: nat)
    ensures FenceOf(line) == Some(FenceMark(mark, length)) <==> exists at: nat :: IsFenceLine(line, mark, length, at)
  {
    hide RunLength, DropBlanks;
    var at := BlankEnd(line);
    var text := line[at..];
    assert line == line[..at] + text;
    DropBlanksIs(line[..at], text);
    if FenceOf(line) == Some(FenceMark(mark, length)) {
      assert forall i :: at <= i < at + length ==> line[i] == text[i - at];
      assert IsFenceLine(line, mark, length, at);
    }
    if k: nat :| IsFenceLine(line, mark, length, k) {
      assert line[k] == mark;
      SameBlanks(line, k, at);
      RunLengthIs(text, mark, length);
      if mark == '~' {
        RunLengthIs(text, '`', 0);
      }
    }
  }

  // --- Lines ---

  lemma {:induction false} LineEndIs(s: string, n: nat)
    requires n <= |s| && (forall k :: 0 <= k < n ==> !IsLineBreak(s[k])) && (n < |s| ==> IsLineBreak(s[n]))
    ensures LineEnd(s) == n
  {
  }

  /** Lines are split at every line break and nowhere else; a carriage return takes the line feed after it along. */
  lemma LinesAre(line: string, end: string, rest: string)
    requires forall k :: 0 <= k < |line| ==> !IsLineBreak(line[k])
    requires end == "\r\n" || (|end| == 1 && IsLineBreak(end[0]) && (end == "\r" ==> rest == [] || rest[0] != '\n'))
    ensures SplitLines(line) == if line == [] then [] else [line]
    ensures SplitLines(line + end + rest) == [line] + SplitLines(rest)
  {
    var s := line + end + rest;
    LineEndIs(line, |line|);
    LineEndIs(s, |line|);
    assert s[..|line|] == line;
    assert BreakLength(s, |line|) == |end|;
    assert s[|line| + |end|..] == rest;
  }

  // --- Sections ---

  // Line i holds a heading, and the nearest earlier heading of a smaller level, if any, is in another line.
  ghost predicate Encloses(marks: Marks, outer: Option<nat>, i: nat) {
    i < |marks| && marks[i].Some? && IsNearest(marks, i, marks[i].value.level, outer)
  }

  /** The lines whose headings make the path of a heading, outermost first. */
  ghost predicate IsPath(marks: Marks, i: nat, places: seq<nat>)
    decreases |places|
  {
    && places != [] && places[|places| - 1] == i
    && (if |places| == 1 then Encloses(marks, None, i)
        else Encloses(marks, Some(places[|places| - 2]), i)
             && IsPath(marks, places[|places| - 2], places[..|places| - 1]))
  }

  predicate AreTitles(marks: Marks, places: seq<nat>, path: seq<string>) {
    && |path| == |places|
    && forall k :: 0 <= k < |places| ==>
         places[k] < |marks| && marks[places[k]].Some? && path[k] == marks[places[k]].value.title
  }

  /** The path of a section is the title of its heading after those of the nearest enclosing headings. */
  lemma {:induction false} PathsEnclose(marks: Marks, i: nat) returns (places: seq<nat>)
    requires i < |marks| && marks[i].Some?
    ensures IsPath(marks, i, places) && AreTitles(marks, places, Titles(Chain(marks, i)))
    decreases i
  {
    var parent := Nearest(marks, i, marks[i].value.level);
    if parent.Some? {
      var outer := PathsEnclose(marks, parent.value);
      hide IsNearest;
      places := outer + [i];
      assert places[..|places| - 1] == outer;
      assert Chain(marks, i) == Chain(marks, parent.value) + [marks[i].value];
    } else {
      places := [i];
    }
  }

  // Where sections start: at the first line, and at every heading.
  predicate AreStarts(marks: Marks, starts: seq<nat>, from: nat) {
    && (forall k :: 0 < k < |starts| ==> starts[k - 1] < starts[k])
    && (forall k :: 0 <= k < |starts| ==> from <= starts[k] < |marks|)
    && (forall i: nat :: from <= i < |marks| ==> (i in starts <==> i == from || marks[i].Some?))
    && (starts != [] ==> starts[0] == from)
  }

  function TextAt(lines: seq<string>, starts: seq<nat>): string
    requires starts != [] && starts[0] <= (if |starts| > 1 then starts[1] else |lines|) <= |lines|
  {
    Strip(Join("\n", lines[starts[0]..if |starts| > 1 then starts[1] else |lines|]))
  }

  // The titles that lead to the section that starts here.
  ghost predicate LeadsTo(marks: Marks, title: string, i: nat, path: seq<string>) {
    if i >= |marks| || marks[i].None? then path == [title]
    else exists places :: IsPath(marks, i, places) && AreTitles(marks, places, path)
  }

  lemma PathLeads(marks: Marks, title: string, i: nat)
    requires i < |marks|
    ensures LeadsTo(marks, title, i, PathOf(marks, title, i))
  {
    if marks[i].Some? {
      var places := PathsEnclose(marks, i);
      var path := PathOf(marks, title, i);
      hide Chain, IsPath;
      assert AreTitles(marks, places, path);
    }
  }

  // The visible sections of these starts, each with the headings that lead to it.
  ghost predicate SectionsAt(marks: Marks, lines: seq<string>, title: string, starts: seq<nat>, sections: seq<Section>)
    requires |marks| == |lines|
    decreases |starts|
  {
    if starts == [] then sections == []
    else if !(starts[0] < (if |starts| > 1 then starts[1] else |lines|) <= |lines|) then false
    else if TextAt(lines, starts) == "" then SectionsAt(marks, lines, title, starts[1..], sections)
    else
      && sections != [] && sections[0].content == TextAt(lines, starts)
      && LeadsTo(marks, title, starts[0], sections[0].path)
      && SectionsAt(marks, lines, title, starts[1..], sections[1..])
  }

  /**
    * The sections are the visible stretches between headings, stripped, each on the path of the headings that enclose
    * it, or on the title of the document before the first heading.
    */
  lemma {:induction false} SectionsFollow(marks: Marks, lines: seq<string>, title: string, i: nat)
    returns (starts: seq<nat>)
    requires i <= |lines| == |marks|
    ensures AreStarts(marks, starts, i) && SectionsAt(marks, lines, title, starts, SectionsFrom(marks, lines, title, i))
    decreases |lines| - i
  {
    if i == |lines| {
      starts := [];
    } else {
      var j := NextStart(marks, i + 1);
      var rest := SectionsFollow(marks, lines, title, j);
      starts := [i] + rest;
      assert starts[1..] == rest;
      StartsFollow(marks, i, j, rest);
      hide SectionsAt, AreStarts;
      SectionFollows(marks, lines, title, i, j, rest);
    }
  }

  lemma StartsFollow(marks: Marks, i: nat, j: nat, rest: seq<nat>)
    requires i < |marks| && j == NextStart(marks, i + 1) && AreStarts(marks, rest, j)
    ensures AreStarts(marks, [i] + rest, i)
    ensures if rest == [] then j == |marks| else rest[0] == j
  {
    if j < |marks| {
      assert j in rest;
    }
  }

  lemma SectionFollows(marks: Marks, lines: seq<string>, title: string, i: nat, j: nat, rest: seq<nat>)
    requires i < j <= |lines| == |marks| && j == NextStart(marks, i + 1)
    requires if rest == [] then j == |lines| else rest[0] == j
    requires SectionsAt(marks, lines, title, rest, SectionsFrom(marks, lines, title, j))
    ensures SectionsAt(marks, lines, title, [i] + rest, SectionsFrom(marks, lines, title, i))
  {
    var starts := [i] + rest;
    assert starts[1..] == rest;
    SectionsStep(marks, lines, title, i, j);
    PathLeads(marks, title, i);
    var head := SectionOf(PathOf(marks, title, i), lines[i..j]);
    var tail := SectionsFrom(marks, lines, title, j);
    hide Strip, Join, LeadsTo, PathOf, SectionsFrom, NextStart;
    if head == [] {
      assert head + tail == tail;
    } else {
      assert (head + tail)[0] == head[0] && (head + tail)[1..] == tail;
    }
  }
}

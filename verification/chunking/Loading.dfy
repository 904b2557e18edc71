/** What is read from an uploaded file. */
module Loading {
  import opened Text
  import opened Markdown
  import opened Lexing
  import opened Chunker

  predicate AllSpace(s: string) {
    forall i :: 0 <= i < |s| ==> IsSpace(s[i])
  }

  lemma {:induction false} UnifyPast(a: string, rest: string)
    requires '\r' !in a
    ensures UnifyNewlines(a + rest) == a + UnifyNewlines(rest)
    decreases |a|
  {
    if a == [] {
      assert a + rest == rest;
    } else {
      assert a[0] in a && (a + rest)[1..] == a[1..] + rest;
      UnifyPast(a[1..], rest);
    }
  }

  /** Every line end becomes one line feed, whichever of the three it was, and nothing else changes. */
  lemma LineEndsUnify(a: string, end: string, rest: string)
    requires '\r' !in a && (end == "\r\n" || (end == "\r" && (rest == [] || rest[0] != '\n')))
    ensures UnifyNewlines(a) == a && UnifyNewlines(a + end + rest) == a + "\n" + UnifyNewlines(rest)
  {
    UnifyPast(a, end + rest);
    assert a + end + rest == a + (end + rest);
    var s := end + rest;
    assert s[|end|..] == rest;
    UnifyPast(a, []);
    assert a + [] == a;
  }

  /** One byte order mark at the beginning is removed. */
  lemma OneMarkIsRemoved(text: string)
    ensures Normalize("\U{feff}" + text) == UnifyNewlines(text)
    ensures text == [] || text[0] != '\U{feff}' ==> Normalize(text) == UnifyNewlines(text)
  {
    assert ("\U{feff}" + text)[1..] == text;
  }

  lemma {:induction false} FirstVisibleIs(lines: seq<string>, i: nat)
    requires i < |lines| && Strip(lines[i]) != [] && forall k :: 0 <= k < i ==> Strip(lines[k]) == []
    ensures FirstVisibleLine(lines) == Strip(lines[i])
  {
    hide Strip;
    if i > 0 {
      FirstVisibleIs(lines[1..], i - 1);
    }
  }

  lemma ClosedTitle(title: string, gap: string, closing: string)
    requires title != [] && !IsSpace(title[|title| - 1]) && AllSpace(gap) && AllHashes(closing)
    requires gap == [] ==> title[|title| - 1] != '#'
    requires closing == [] ==> gap == []
    ensures StripRight(DropTrailing(StripRight(title + gap + closing), c => c == '#')) == title
  {
    var line := title + gap + closing;
    StripRightIs(line, []);
    assert line + [] == line;
    var open := title + gap;
    DropTrailingIs(open, closing, c => c == '#');
    StripRightIs(title, gap);
  }

  /**
    * The title of a Markdown body is that of its first visible line, a hash and a blank before it, less a closing run
    * of hashes; no other title is accepted.
    */
  lemma TitleReads(body: string, i: nat, title: string, gap: string, closing: string, expected: string)
    requires i < |SplitLines(body)| && forall k :: 0 <= k < i ==> Strip(SplitLines(body)[k]) == []
    requires Strip(SplitLines(body)[i]) == "# " + (title + gap + closing)
    requires title != [] && !IsSpace(title[|title| - 1]) && AllSpace(gap) && AllHashes(closing)
    requires (gap == [] ==> title[|title| - 1] != '#') && (closing == [] ==> gap == [])
    ensures HasTitle(body, expected) <==> expected == title
  {
    hide Strip, SplitLines, StripRight, DropTrailing;
    FirstVisibleIs(SplitLines(body), i);
    var first := FirstVisibleLine(SplitLines(body));
    assert first[2..] == title + gap + closing;
    assert "# " <= first && first[1] == ' ' && !("## " <= first);
    ClosedTitle(title, gap, closing);
  }

  /** A body whose first visible line does not begin with one hash and a blank has no title at all. */
  lemma NoTitleReads(body: string, i: nat, expected: string)
    requires i < |SplitLines(body)| && forall k :: 0 <= k < i ==> Strip(SplitLines(body)[k]) == []
    requires Strip(SplitLines(body)[i]) != [] && !("# " <= Strip(SplitLines(body)[i]))
    ensures !HasTitle(body, expected)
  {
    hide Strip, SplitLines, StripRight, DropTrailing;
    FirstVisibleIs(SplitLines(body), i);
  }
}

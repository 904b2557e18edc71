/** How a section is cut: greedy groups of paragraphs. */
module Packing {
  import opened Text
  import opened Splitting
  import opened Lexing

  // --- Paragraphs ---

  // A line feed at i, a further one at j, and only blanks between them: paragraphs are separated here.
  predicate SeparatedAt(s: string, i: nat, j: nat) {
    i < j < |s| && s[i] == '\n' && s[j] == '\n' && AllBlank(s[i + 1..j])
  }

  ghost predicate OneParagraph(s: string) {
    forall i: nat, j: nat :: !SeparatedAt(s, i, j)
  }

  lemma {:induction false} BlankRunIs(s: string, i: nat, j: nat)
    requires i <= j <= |s| && (forall k :: i <= k < j ==> IsBlank(s[k])) && (j < |s| ==> !IsBlank(s[j]))
    ensures BlankRun(s, i) == j
    decreases j - i
  {
    if i < j {
      BlankRunIs(s, i + 1, j);
    }
  }

  lemma {:induction false} NewlineRunIs(s: string, i: nat, j: nat)
    requires i <= j <= |s| && (forall k :: i <= k < j ==> s[k] == '\n') && (j < |s| ==> s[j] != '\n')
    ensures NewlineRun(s, i) == j
    decreases j - i
  {
    if i < j {
      NewlineRunIs(s, i + 1, j);
    }
  }

  lemma {:induction false} BlankRunEnds(s: string, i: nat)
    requires i <= |s|
    ensures forall k :: i <= k < BlankRun(s, i) ==> IsBlank(s[k])
    decreases |s| - i
  {
    if i < |s| && IsBlank(s[i]) {
      BlankRunEnds(s, i + 1);
    }
  }

  lemma SeparatorIff(s: string, i: nat)
    requires i <= |s|
    ensures SeparatorEnd(s, i) > i <==> exists j: nat :: SeparatedAt(s, i, j)
  {
    if SeparatorEnd(s, i) > i {
      var j := BlankRun(s, i + 1);
      BlankRunEnds(s, i + 1);
      assert AllBlank(s[i + 1..j]);
      assert SeparatedAt(s, i, j);
    }
    if j: nat :| SeparatedAt(s, i, j) {
      assert forall k :: i + 1 <= k < j ==> s[k] == s[i + 1..j][k - i - 1];
      BlankRunIs(s, i + 1, j);
    }
  }

  lemma FirstIs(s: string, at: nat)
    requires at <= |s| && (forall i: nat, j: nat :: i < at ==> !SeparatedAt(s, i, j))
    requires at == |s| || exists j: nat :: SeparatedAt(s, at, j)
    ensures FirstSeparator(s, 0) == at
  {
    hide SeparatorEnd, SeparatedAt, FirstSeparator;
    var first := FirstSeparator(s, 0);
    SeparatorIff(s, first);
    SeparatorIff(s, at);
    if first < |s| {
      var j: nat :| SeparatedAt(s, first, j);
    }
  }

  lemma {:induction false} StripAllAppend(a: seq<string>, b: seq<string>)
    ensures StripAll(a + b) == StripAll(a) + StripAll(b)
  {
    if a == [] {
      assert a + b == b;
    } else {
      assert (a + b)[1..] == a[1..] + b;
      StripAllAppend(a[1..], b);
    }
  }

  /** A text without separator is one paragraph, or none when it is blank. */
  lemma OneParagraphIs(a: string)
    requires OneParagraph(a)
    ensures Paragraphs(a) == Keep(Strip(a))
  {
    FirstIs(a, |a|);
    hide Strip;
    assert StripAll([a]) == Keep(Strip(a)) + StripAll([]);
  }

  /**
    * Paragraphs are separated by a line feed, blanks, and all line feeds that follow; nothing else separates them, and
    * each is stripped.
    */
  lemma ParagraphsAre(a: string, blanks: string, feeds: string, rest: string)
    requires OneParagraph(a) && AllBlank(blanks) && feeds != [] && (forall k :: 0 <= k < |feeds| ==> feeds[k] == '\n')
    requires rest == [] || rest[0] != '\n'
    requires forall i: nat, j: nat :: i < |a| ==> !SeparatedAt(a + ("\n" + blanks + feeds) + rest, i, j)
    ensures Paragraphs(a + ("\n" + blanks + feeds) + rest) == Keep(Strip(a)) + Paragraphs(rest)
  {
    var s := a + ("\n" + blanks + feeds) + rest;
    SeparatorIs(a, blanks, feeds, rest);
    FirstIs(s, |a|);
    hide Strip, SeparatedAt, SeparatorEnd;
    assert SplitAtSeparators(s) == [a] + SplitAtSeparators(rest);
    StripAllAppend([a], SplitAtSeparators(rest));
    assert StripAll([a]) == Keep(Strip(a)) + StripAll([]);
  }

  lemma SeparatorIs(a: string, blanks: string, feeds: string, rest: string)
    requires AllBlank(blanks) && feeds != [] && (forall k :: 0 <= k < |feeds| ==> feeds[k] == '\n')
    requires rest == [] || rest[0] != '\n'
    ensures var s := a + ("\n" + blanks + feeds) + rest;
            && SeparatedAt(s, |a|, |a| + 1 + |blanks|) && s[..|a|] == a
            && SeparatorEnd(s, |a|) <= |s| && s[SeparatorEnd(s, |a|)..] == rest
  {
    var s := a + ("\n" + blanks + feeds) + rest;
    var j := |a| + 1 + |blanks|;
    assert forall k :: |a| + 1 <= k < j ==> s[k] == blanks[k - |a| - 1];
    assert forall k :: j <= k < j + |feeds| ==> s[k] == feeds[k - j];
    assert s[|a| + 1..j] == blanks;
    BlankRunIs(s, |a| + 1, j);
    NewlineRunIs(s, j, j + |feeds|);
    assert s[j + |feeds|..] == rest;
  }

  // --- Where a long paragraph is cut ---

  predicate Punctuation(c: char) {
    c in "\U{3002}\U{ff01}\U{ff1f}\U{ff1b}.!?;\n"
  }

  // A punctuation mark in the second half of the window.
  predicate MayEnd(s: string, limit: nat, m: nat) {
    limit / 2 <= m + 1 <= limit <= |s| && Punctuation(s[m])
  }

  /** The cut comes behind the last such mark, or at the limit when there is none. */
  ghost predicate EndsAt(s: string, limit: nat, end: nat) {
    || (0 < end && MayEnd(s, limit, end - 1) && forall m: nat :: MayEnd(s, limit, m) ==> m < end)
    || (end == limit && forall m: nat :: !MayEnd(s, limit, m))
  }

  lemma WindowEnds(s: string, limit: nat, end: nat)
    requires limit >= 32 && |s| > limit && EndsAt(s, limit, end)
    ensures Boundary(s[..limit]) == end
  {
    var window := s[..limit];
    forall m: nat
      ensures IsCut(window, m) <==> MayEnd(s, limit, m)
    {
      if m < limit {
        assert window[m] == s[m];
      }
    }
    hide IsCut, MayEnd;
    assert IsBoundary(window, Boundary(window));
  }

  // A long paragraph has such a cut, and a place behind it where it goes on.
  lemma CutExists(s: string, limit: nat) returns (end: nat, next: nat)
    requires limit >= 32 && |s| > limit
    ensures EndsAt(s, limit, end) && IsNext(s, end, next) && 16 <= end <= limit
  {
    var window := s[..limit];
    forall m: nat
      ensures IsCut(window, m) <==> MayEnd(s, limit, m)
    {
      if m < limit {
        assert window[m] == s[m];
      }
    }
    end := Boundary(window);
    hide IsCut, MayEnd, Boundary;
    next := end;
    while next < |s| && IsSpace(s[next])
      invariant end <= next <= |s| && forall m :: end <= m < next ==> IsSpace(s[m])
    {
      next := next + 1;
    }
  }

  predicate IsNext(s: string, end: nat, next: nat) {
    end <= next <= |s| && (forall m :: end <= m < next ==> IsSpace(s[m])) && (next < |s| ==> !IsSpace(s[next]))
  }

  /** A paragraph within the limit is one part; a longer one is cut there, and goes on behind the white space. */
  lemma LongPartsCut(s: string, limit: nat, end: nat, next: nat)
    requires limit >= 32
    ensures 0 < |s| <= limit ==> LongParts(s, limit) == [s]
    ensures |s| > limit && EndsAt(s, limit, end) && IsNext(s, end, next) ==>
              LongParts(s, limit) == Keep(Strip(s[..end])) + LongParts(s[next..], limit)
  {
    hide Strip;
    if |s| > limit && EndsAt(s, limit, end) && IsNext(s, end, next) {
      WindowEnds(s, limit, end);
      StripLeftIs(s[end..next], s[next..]);
      assert s[end..] == s[end..next] + s[next..];
    }
  }

  // --- Groups of paragraphs ---

  /**
    * Paragraphs a to b make one group: one that is too long stands alone; otherwise they fit the limit together, and
    * the next one would not fit with them.
    */
  predicate IsGroup(paragraphs: seq<string>, limit: nat, a: nat, b: nat) {
    && a < b <= |paragraphs|
    && if |paragraphs[a]| > limit then b == a + 1
       else
         && |Join("\n\n", paragraphs[a..b])| <= limit
         && (b < |paragraphs| ==> |Join("\n\n", paragraphs[a..b + 1])| > limit)
  }

  /** The groups follow each other from paragraph a on. */
  predicate AreGroups(paragraphs: seq<string>, limit: nat, a: nat, ends: seq<nat>)
    decreases |ends|
  {
    if ends == [] then a == |paragraphs|
    else IsGroup(paragraphs, limit, a, ends[0]) && AreGroups(paragraphs, limit, ends[0], ends[1..])
  }

  function PieceOf(paragraphs: seq<string>, limit: nat, a: nat, b: nat): seq<string>
    requires limit >= 32 && IsGroup(paragraphs, limit, a, b)
  {
    if |paragraphs[a]| > limit then LongParts(paragraphs[a], limit) else [Join("\n\n", paragraphs[a..b])]
  }

  function PiecesOf(paragraphs: seq<string>, limit: nat, a: nat, ends: seq<nat>): seq<string>
    requires limit >= 32 && AreGroups(paragraphs, limit, a, ends)
    decreases |ends|
  {
    if ends == [] then [] else PieceOf(paragraphs, limit, a, ends[0]) + PiecesOf(paragraphs, limit, ends[0], ends[1..])
  }

  lemma {:induction false} JoinAppend(parts: seq<string>, p: string)
    requires parts != []
    ensures Join("\n\n", parts + [p]) == Join("\n\n", parts) + "\n\n" + p
  {
    if |parts| > 1 {
      assert (parts + [p])[1..] == parts[1..] + [p];
      JoinAppend(parts[1..], p);
    } else {
      assert (parts + [p])[1..] == [p];
    }
  }

  lemma {:induction false} JoinVisible(parts: seq<string>)
    requires parts != [] && parts[0] != []
    ensures Join("\n\n", parts) != [] && |parts[0]| <= |Join("\n\n", parts)|
  {
  }

  // What is being filled: paragraphs a to i.
  function Filling(paragraphs: seq<string>, a: nat, i: nat): string
    requires a <= i <= |paragraphs|
  {
    Join("\n\n", paragraphs[a..i])
  }

  lemma FillingNext(paragraphs: seq<string>, a: nat, i: nat)
    requires a <= i < |paragraphs| && forall k :: 0 <= k < |paragraphs| ==> paragraphs[k] != []
    ensures Joined(Filling(paragraphs, a, i), paragraphs[i]) == Filling(paragraphs, a, i + 1)
    ensures a < i <==> Filling(paragraphs, a, i) != []
  {
    assert paragraphs[a..i + 1] == paragraphs[a..i] + [paragraphs[i]];
    if a < i {
      JoinAppend(paragraphs[a..i], paragraphs[i]);
      JoinVisible(paragraphs[a..i]);
    } else {
      assert paragraphs[a..i] == [];
    }
  }

  lemma FillingOne(paragraphs: seq<string>, a: nat)
    requires a <= |paragraphs|
    ensures Filling(paragraphs, a, a) == []
    ensures a < |paragraphs| ==> Filling(paragraphs, a, a + 1) == paragraphs[a]
  {
    assert paragraphs[a..a] == [];
    assert a < |paragraphs| ==> paragraphs[a..a + 1] == [paragraphs[a]];
  }

  lemma {:induction false} PackFrom(paragraphs: seq<string>, limit: nat, a: nat, i: nat) returns (ends: seq<nat>)
    requires limit >= 32 && a <= i <= |paragraphs| && forall k :: 0 <= k < |paragraphs| ==> paragraphs[k] != []
    requires a < i ==> |Filling(paragraphs, a, i)| <= limit && |paragraphs[a]| <= limit
    ensures AreGroups(paragraphs, limit, a, ends)
    ensures Pack(Filling(paragraphs, a, i), paragraphs[i..], limit) == PiecesOf(paragraphs, limit, a, ends)
    decreases |paragraphs| - i, i - a
  {
    hide Join, LongParts, Joined;
    FillingOne(paragraphs, i);
    if i == |paragraphs| {
      ends := if a < i then [i] else [];
      if a < i {
        FillingVisible(paragraphs, a, i);
        assert ends[1..] == [];
      }
    } else {
      var p := paragraphs[i];
      assert paragraphs[i..][0] == p && paragraphs[i..][1..] == paragraphs[i + 1..];
      FillingNext(paragraphs, a, i);
      FillingNext(paragraphs, i, i);
      FillingOne(paragraphs, i + 1);
      if |Joined(Filling(paragraphs, a, i), p)| <= limit {
        ends := PackFrom(paragraphs, limit, a, i + 1);
      } else {
        var next := if a < i then i else i + 1;
        var rest := PackFrom(paragraphs, limit, next, next);
        ends := [next] + rest;
        assert ends[1..] == rest;
        PackFlush(Filling(paragraphs, a, i), paragraphs, i, limit);
      }
    }
  }

  // What does not fit is packed as if nothing had been filled, behind what was filled.
  lemma PackFlush(current: string, paragraphs: seq<string>, i: nat, limit: nat)
    requires limit >= 32 && i < |paragraphs| && |Joined(current, paragraphs[i])| > limit
    ensures Pack(current, paragraphs[i..], limit) == Keep(current) + Pack([], paragraphs[i..], limit)
    ensures |paragraphs[i]| > limit ==>
              Pack([], paragraphs[i..], limit) == LongParts(paragraphs[i], limit) + Pack([], paragraphs[i + 1..], limit)
  {
    PackStep([], current, paragraphs, i, limit);
    PackStep([], [], paragraphs, i, limit);
    var p, rest := paragraphs[i], paragraphs[i + 1..];
    Nothing(Pack(current, paragraphs[i..], limit));
    Nothing(Pack([], paragraphs[i..], limit));
    Nothing(Keep(current));
    Nothing(LongParts(p, limit));
    Nothing(Pack(p, rest, limit));
    Associative(Keep(current), LongParts(p, limit), Pack([], rest, limit));
    hide Pack, LongParts;
  }

  lemma Nothing(s: seq<string>)
    ensures [] + s == s
  {
  }

  lemma FillingVisible(paragraphs: seq<string>, a: nat, i: nat)
    requires a < i <= |paragraphs| && paragraphs[a] != []
    ensures Filling(paragraphs, a, i) != []
  {
    JoinVisible(paragraphs[a..i]);
  }

  /** Splitting packs the paragraphs of a text greedily: every paragraph that still fits is joined to the piece. */
  lemma TextIsPacked(text: string, limit: nat) returns (ends: seq<nat>)
    requires limit >= 32
    ensures AreGroups(Paragraphs(text), limit, 0, ends)
    ensures SplitText(text, limit) == PiecesOf(Paragraphs(text), limit, 0, ends)
  {
    var paragraphs := Paragraphs(text);
    forall k | 0 <= k < |paragraphs|
      ensures paragraphs[k] != []
    {
      assert paragraphs[k] in paragraphs;
    }
    hide Paragraphs;
    ends := PackFrom(paragraphs, limit, 0, 0);
    FillingOne(paragraphs, 0);
    assert paragraphs[0..] == paragraphs;
  }
}

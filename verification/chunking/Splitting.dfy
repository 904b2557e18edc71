/** Paragraphs, greedy packing, and hard cuts. */
module Splitting {
  import opened Text

  // --- Paragraph separators: a newline, optional blanks, one or more newlines ---

  function BlankRun(s: string, i: nat): (j: nat)
    requires i <= |s|
    ensures i <= j <= |s|
    ensures forall k :: i <= k < j ==> IsSpace(s[k])
    decreases |s| - i
  {
    if i < |s| && IsBlank(s[i]) then BlankRun(s, i + 1) else i
  }

  function NewlineRun(s: string, i: nat): (j: nat)
    requires i <= |s|
    ensures i <= j <= |s|
    ensures forall k :: i <= k < j ==> IsSpace(s[k])
    ensures i < |s| && s[i] == '\n' ==> i < j
    decreases |s| - i
  {
    if i < |s| && s[i] == '\n' then NewlineRun(s, i + 1) else i
  }

  /** The end of the separator that begins at i, or i when none does. */
  function SeparatorEnd(s: string, i: nat): (j: nat)
    requires i <= |s|
    ensures i <= j <= |s|
    ensures forall k :: i <= k < j ==> IsSpace(s[k])
  {
    if i < |s| && s[i] == '\n' && NewlineRun(s, BlankRun(s, i + 1)) > BlankRun(s, i + 1)
    then NewlineRun(s, BlankRun(s, i + 1)) else i
  }

  function FirstSeparator(s: string, i: nat): (j: nat)
    requires i <= |s|
    ensures i <= j <= |s|
    ensures j < |s| ==> j < SeparatorEnd(s, j)
    ensures forall k :: i <= k < j ==> SeparatorEnd(s, k) == k
    decreases |s| - i
  {
    if i == |s| || SeparatorEnd(s, i) > i then i else FirstSeparator(s, i + 1)
  }

  function SplitAtSeparators(s: string): seq<string>
    decreases |s|
  {
    var i := FirstSeparator(s, 0);
    if i == |s| then [s] else [s[..i]] + SplitAtSeparators(s[SeparatorEnd(s, i)..])
  }

  function StripAll(parts: seq<string>): (r: seq<string>)
    ensures forall p :: p in r ==> Tidy(p)
  {
    if parts == [] then []
    else (if Strip(parts[0]) == [] then [] else [Strip(parts[0])]) + StripAll(parts[1..])
  }

  // A non-empty text that neither begins nor ends with whitespace.
  predicate Tidy(s: string) {
    s != [] && !IsSpace(s[0]) && !IsSpace(s[|s| - 1])
  }

  function Paragraphs(text: string): (r: seq<string>)
    ensures forall p :: p in r ==> Tidy(p)
  {
    StripAll(SplitAtSeparators(text))
  }

  lemma {:induction false} SeparatorsSqueeze(s: string)
    ensures Squeeze(Concat(SplitAtSeparators(s))) == Squeeze(s)
    decreases |s|
  {
    var i := FirstSeparator(s, 0);
    if i == |s| {
      assert Concat([s]) == s + Concat([]) == s;
    } else {
      var j := SeparatorEnd(s, i);
      var rest := SplitAtSeparators(s[j..]);
      SeparatorsSqueeze(s[j..]);
      DropSpaces(s, i, j);
      assert ([s[..i]] + rest)[1..] == rest;
      SqueezeConcat(s[..i], Concat(rest));
    }
  }

  lemma {:induction false} StripAllSqueeze(parts: seq<string>)
    ensures Squeeze(Concat(StripAll(parts))) == Squeeze(Concat(parts))
  {
    if parts != [] {
      StripAllSqueeze(parts[1..]);
      StripSqueeze(parts[0]);
      SqueezeConcat(parts[0], Concat(parts[1..]));
      var rest := StripAll(parts[1..]);
      if Strip(parts[0]) != [] {
        assert ([Strip(parts[0])] + rest)[1..] == rest;
        SqueezeConcat(Strip(parts[0]), Concat(rest));
      } else {
        assert [] + rest == rest;
      }
    }
  }

  lemma ParagraphsSqueeze(text: string)
    ensures Squeeze(Concat(Paragraphs(text))) == Squeeze(text)
  {
    StripAllSqueeze(SplitAtSeparators(text));
    SeparatorsSqueeze(text);
  }

  // --- Hard splitting of one long paragraph ---

  predicate IsSplitPunctuation(c: char) {
    c in {'\U{3002}', '\U{ff01}', '\U{ff1f}', '\U{ff1b}', '.', '!', '?', ';', '\n'}
  }

  // A cut just after position m: a punctuation mark in the second half of the window.
  predicate IsCut(window: string, m: nat) {
    m < |window| && m + 1 >= |window| / 2 && IsSplitPunctuation(window[m])
  }

  /** The last cut of the window, or the whole window when it has none. */
  ghost predicate IsBoundary(window: string, b: nat) {
    && ((b > 0 && IsCut(window, b - 1)) || (b == |window| && forall m: nat :: !IsCut(window, m)))
    && forall m: nat :: b <= m ==> !IsCut(window, m)
  }

  function BoundaryFrom(window: string, k: nat): (b: nat)
    requires k <= |window|
    requires forall m: nat :: k <= m ==> !IsCut(window, m)
    ensures IsBoundary(window, b)
  {
    if k == 0 then |window| else if IsCut(window, k - 1) then k else BoundaryFrom(window, k - 1)
  }

  function Boundary(window: string): (b: nat)
    ensures IsBoundary(window, b)
    ensures |window| / 2 <= b <= |window|
  {
    BoundaryFrom(window, |window|)
  }

  function Keep(part: string): seq<string> {
    if part == [] then [] else [part]
  }

  /** The pieces of a paragraph from `remaining` on. */
  function LongParts(remaining: string, limit: nat): seq<string>
    requires limit >= 32
    decreases |remaining|
  {
    if |remaining| <= limit then Keep(remaining)
    else
      var b := Boundary(remaining[..limit]);
      Keep(Strip(remaining[..b])) + LongParts(StripLeft(remaining[b..]), limit)
  }

  lemma LongStep(remaining: string, limit: nat)
    requires limit >= 32
    ensures |remaining| <= limit ==> LongParts(remaining, limit) == Keep(remaining)
    ensures |remaining| > limit ==>
              var b := Boundary(remaining[..limit]);
              && 16 <= b <= limit
              && LongParts(remaining, limit) == Keep(Strip(remaining[..b]))
                 + LongParts(StripLeft(remaining[b..]), limit)
  {
  }

  /** The loop that cuts a paragraph; it ends because every cut removes at least sixteen characters. */
  method SplitLongParagraph(paragraph: string, limit: nat) returns (parts: seq<string>)
    requires limit >= 32
    ensures parts == LongParts(Strip(paragraph), limit)
  {
    hide LongParts, Strip, Boundary;
    var remaining := Strip(paragraph);
    ghost var whole := LongParts(remaining, limit);
    parts := [];
    while |remaining| > limit
      invariant parts + LongParts(remaining, limit) == whole
      decreases |remaining|
    {
      LongStep(remaining, limit);
      var boundary := Boundary(remaining[..limit]);
      var part := Strip(remaining[..boundary]);
      Associative(parts, Keep(part), LongParts(StripLeft(remaining[boundary..]), limit));
      if part != [] {
        parts := parts + [part];
      }
      remaining := StripLeft(remaining[boundary..]);
    }
    LongStep(remaining, limit);
    if remaining != [] {
      parts := parts + [remaining];
    }
  }

  // A chunk text: visible, and within the limit.
  predicate Fits(s: string, limit: nat) {
    s != [] && !IsSpace(s[0]) && |s| <= limit
  }

  lemma {:induction false} LongPartsFit(remaining: string, limit: nat)
    requires limit >= 32
    requires remaining != [] ==> !IsSpace(remaining[0])
    ensures forall p :: p in LongParts(remaining, limit) ==> Fits(p, limit)
    decreases |remaining|
  {
    if |remaining| > limit {
      var b := Boundary(remaining[..limit]);
      LongPartsFit(StripLeft(remaining[b..]), limit);
    }
  }

  lemma HeadSqueeze(part: string, rest: seq<string>)
    ensures Squeeze(Concat(Keep(part) + rest)) == Squeeze(part) + Squeeze(Concat(rest))
  {
    if part == [] {
      assert [] + rest == rest;
    } else {
      assert ([part] + rest)[1..] == rest;
      SqueezeConcat(part, Concat(rest));
    }
  }

  lemma {:induction false} LongPartsSqueeze(remaining: string, limit: nat)
    requires limit >= 32
    ensures Squeeze(Concat(LongParts(remaining, limit))) == Squeeze(remaining)
    decreases |remaining|
  {
    LongStep(remaining, limit);
    if |remaining| <= limit {
      HeadSqueeze(remaining, []);
    } else {
      var b := Boundary(remaining[..limit]);
      var rest := StripLeft(remaining[b..]);
      LongPartsSqueeze(rest, limit);
      HeadSqueeze(Strip(remaining[..b]), LongParts(rest, limit));
      StripLeftSqueeze(remaining[b..]);
      StripSqueeze(remaining[..b]);
      SqueezeConcat(remaining[..b], remaining[b..]);
      assert remaining == remaining[..b] + remaining[b..];
    }
  }

  // --- Greedy packing of paragraphs ---

  function Joined(current: string, paragraph: string): string {
    if current == [] then paragraph else current + "\n\n" + paragraph
  }

  /** The chunks still to come when `current` is being filled. */
  function Pack(current: string, paragraphs: seq<string>, limit: nat): seq<string>
    requires limit >= 32
    decreases |paragraphs|
  {
    if paragraphs == [] then Keep(current)
    else
      var p := paragraphs[0];
      if |Joined(current, p)| <= limit then Pack(Joined(current, p), paragraphs[1..], limit)
      else if |p| <= limit then Keep(current) + Pack(p, paragraphs[1..], limit)
      else Keep(current) + LongParts(p, limit) + Pack([], paragraphs[1..], limit)
  }

  function SplitText(text: string, limit: nat): seq<string>
    requires limit >= 32
  {
    Pack([], Paragraphs(text), limit)
  }

  lemma PackStep(chunks: seq<string>, current: string, paragraphs: seq<string>, i: nat, limit: nat)
    requires limit >= 32 && i < |paragraphs|
    ensures var p := paragraphs[i];
            var rest := paragraphs[i + 1..];
            chunks + Pack(current, paragraphs[i..], limit)
            == if |Joined(current, p)| <= limit then chunks + Pack(Joined(current, p), rest, limit)
               else if |p| <= limit then chunks + Keep(current) + Pack(p, rest, limit)
               else chunks + Keep(current) + LongParts(p, limit) + Pack([], rest, limit)
  {
    var p := paragraphs[i];
    var rest := paragraphs[i + 1..];
    assert paragraphs[i..][0] == p && paragraphs[i..][1..] == rest;
    Associative(chunks, Keep(current), Pack(p, rest, limit));
    Associative(chunks, Keep(current) + LongParts(p, limit), Pack([], rest, limit));
    Associative(chunks, Keep(current), LongParts(p, limit));
  }

  method SplitOversizedText(text: string, limit: nat) returns (chunks: seq<string>)
    requires limit >= 32
    ensures chunks == SplitText(text, limit)
  {
    hide Paragraphs, LongParts, Strip;
    var paragraphs := Paragraphs(text);
    chunks := [];
    var current := "";
    for i := 0 to |paragraphs|
      invariant chunks + Pack(current, paragraphs[i..], limit) == Pack([], paragraphs, limit)
    {
      hide Pack;
      var paragraph := paragraphs[i];
      PackStep(chunks, current, paragraphs, i, limit);
      var candidate := if current != "" then current + "\n\n" + paragraph else paragraph;
      if |candidate| <= limit {
        current := candidate;
        continue;
      }
      if current != "" {
        chunks := chunks + [current];
        current := "";
      }
      if |paragraph| <= limit {
        current := paragraph;
        continue;
      }
      var parts := SplitLongParagraph(paragraph, limit);
      TidyStrip(paragraph);
      chunks := chunks + parts;
    }
    if current != "" {
      chunks := chunks + [current];
    }
  }

  lemma TidyStrip(s: string)
    requires Tidy(s)
    ensures Strip(s) == s
  {
  }

  /** Every chunk is visible and within the limit. */
  lemma {:induction false} PackFits(current: string, paragraphs: seq<string>, limit: nat)
    requires limit >= 32
    requires current != [] ==> Fits(current, limit)
    requires forall p :: p in paragraphs ==> Tidy(p)
    ensures forall c :: c in Pack(current, paragraphs, limit) ==> Fits(c, limit)
    decreases |paragraphs|
  {
    if paragraphs != [] {
      var p := paragraphs[0];
      assert p in paragraphs;
      var rest := paragraphs[1..];
      if |Joined(current, p)| <= limit {
        PackFits(Joined(current, p), rest, limit);
      } else if |p| <= limit {
        PackFits(p, rest, limit);
      } else {
        LongPartsFit(p, limit);
        PackFits([], rest, limit);
      }
    }
  }

  lemma JoinedSqueeze(current: string, paragraph: string)
    ensures Squeeze(Joined(current, paragraph)) == Squeeze(current) + Squeeze(paragraph)
  {
    if current != [] {
      var gap := "\n\n";
      SqueezeSpaces(gap);
      SqueezeConcat(current + gap, paragraph);
      SqueezeConcat(current, gap);
      hide Squeeze;
    }
  }

  /** Packing keeps every visible character, in order. */
  lemma {:induction false} PackSqueeze(current: string, paragraphs: seq<string>, limit: nat)
    requires limit >= 32
    ensures Squeeze(Concat(Pack(current, paragraphs, limit))) == Squeeze(current) + Squeeze(Concat(paragraphs))
    decreases |paragraphs|
  {
    hide Squeeze, LongParts;
    if paragraphs == [] {
      HeadSqueeze(current, []);
    } else {
      var p := paragraphs[0];
      var rest := paragraphs[1..];
      ConcatHead(paragraphs);
      Associative(Squeeze(current), Squeeze(p), Squeeze(Concat(rest)));
      if |Joined(current, p)| <= limit {
        PackSqueeze(Joined(current, p), rest, limit);
        JoinedSqueeze(current, p);
      } else if |p| <= limit {
        PackSqueeze(p, rest, limit);
        HeadSqueeze(current, Pack(p, rest, limit));
      } else {
        PackSqueeze([], rest, limit);
        LongHeadSqueeze(current, p, Pack([], rest, limit), limit);
        SqueezeSpaces([]);
      }
    }
  }

  lemma LongHeadSqueeze(current: string, p: string, rest: seq<string>, limit: nat)
    requires limit >= 32
    ensures Squeeze(Concat(Keep(current) + LongParts(p, limit) + rest)) == Squeeze(current) + Squeeze(p)
            + Squeeze(Concat(rest))
  {
    hide Squeeze, LongParts, Concat;
    LongPartsSqueeze(p, limit);
    ConcatAppend(Keep(current) + LongParts(p, limit), rest);
    HeadSqueeze(current, LongParts(p, limit));
    SqueezeConcat(Concat(Keep(current) + LongParts(p, limit)), Concat(rest));
  }

  /** Splitting a section: nothing visible is lost, and every chunk is visible and within the limit. */
  lemma SplitTextCorrect(text: string, limit: nat)
    requires limit >= 32
    ensures Squeeze(Concat(SplitText(text, limit))) == Squeeze(text)
    ensures forall c :: c in SplitText(text, limit) ==> Fits(c, limit)
  {
    PackSqueeze([], Paragraphs(text), limit);
    PackFits([], Paragraphs(text), limit);
    ParagraphsSqueeze(text);
  }

  // --- A paragraph that fits the limit is never cut ---

  ghost predicate Inside(part: string, whole: string) {
    exists i :: 0 <= i <= |whole| && part <= whole[i..]
  }

  lemma InsideJoined(part: string, current: string, paragraph: string)
    requires Inside(part, current) && part != []
    ensures Inside(part, Joined(current, paragraph))
  {
    var i :| 0 <= i <= |current| && part <= current[i..];
    var whole := Joined(current, paragraph);
    assert whole[i..] == current[i..] + ("\n\n" + paragraph);
  }

  lemma LastInsideJoined(current: string, paragraph: string)
    ensures Inside(paragraph, Joined(current, paragraph))
  {
    var whole := Joined(current, paragraph);
    assert whole[|whole| - |paragraph|..] == paragraph;
  }

  lemma {:induction false} PackKeepsCurrent(part: string, current: string, paragraphs: seq<string>, limit: nat)
    requires limit >= 32 && part != [] && Inside(part, current)
    ensures exists c :: c in Pack(current, paragraphs, limit) && Inside(part, c)
    decreases |paragraphs|
  {
    if paragraphs != [] && |Joined(current, paragraphs[0])| <= limit {
      InsideJoined(part, current, paragraphs[0]);
      PackKeepsCurrent(part, Joined(current, paragraphs[0]), paragraphs[1..], limit);
    } else {
      assert current in Pack(current, paragraphs, limit);
    }
  }

  /** Every paragraph no longer than the limit stands whole inside one chunk. */
  lemma {:induction false} PackKeepsParagraphs(current: string, paragraphs: seq<string>, limit: nat, k: nat)
    requires limit >= 32 && k < |paragraphs| && paragraphs[k] != [] && |paragraphs[k]| <= limit
    ensures exists c :: c in Pack(current, paragraphs, limit) && Inside(paragraphs[k], c)
    decreases |paragraphs|
  {
    var p := paragraphs[0];
    var rest := paragraphs[1..];
    var next := if |Joined(current, p)| <= limit then Joined(current, p) else if |p| <= limit then p else [];
    assert forall c :: c in Pack(next, rest, limit) ==> c in Pack(current, paragraphs, limit);
    if k == 0 {
      LastInsideJoined(current, p);
      assert p[0..0 + |p|] == p;
      PackKeepsCurrent(p, next, rest, limit);
    } else {
      PackKeepsParagraphs(next, rest, limit, k - 1);
    }
  }
}

/**
  * Text primitives with Python's meaning: whitespace, strip, splitlines. The text without its whitespace is what all
  * of chunking conserves, so each primitive comes with the lemma that says how it acts on that text.
  */
module Text {

  // The code points for which Python's str.isspace() holds.
  predicate IsSpace(c: char) {
    || '\U{09}' <= c <= '\U{0d}'
    || '\U{1c}' <= c <= '\U{20}'
    || c == '\U{85}' || c == '\U{a0}' || c == '\U{1680}'
    || '\U{2000}' <= c <= '\U{200a}'
    || c == '\U{2028}' || c == '\U{2029}' || c == '\U{202f}' || c == '\U{205f}' || c == '\U{3000}'
  }

  // The characters at which Python's str.splitlines() ends a line.
  predicate IsLineBreak(c: char) {
    '\U{0a}' <= c <= '\U{0d}' || '\U{1c}' <= c <= '\U{1e}' || c == '\U{85}' || c == '\U{2028}' || c == '\U{2029}'
  }

  predicate IsBlank(c: char) {
    c == ' ' || c == '\t'
  }

  /** The text with every whitespace character deleted: what chunking must conserve. */
  function Squeeze(s: string): string {
    if s == [] then [] else (if IsSpace(s[0]) then [] else [s[0]]) + Squeeze(s[1..])
  }

  lemma Associative<T>(a: seq<T>, b: seq<T>, c: seq<T>)
    ensures a + (b + c) == (a + b) + c
  {
  }

  lemma {:induction false} SqueezeConcat(a: string, b: string)
    ensures Squeeze(a + b) == Squeeze(a) + Squeeze(b)
  {
    if a == [] {
      assert a + b == b;
    } else {
      assert (a + b)[1..] == a[1..] + b;
      SqueezeConcat(a[1..], b);
      Associative(if IsSpace(a[0]) then [] else [a[0]], Squeeze(a[1..]), Squeeze(b));
    }
  }

  lemma {:induction false} SqueezeSpaces(s: string)
    requires forall i :: 0 <= i < |s| ==> IsSpace(s[i])
    ensures Squeeze(s) == []
  {
    if s != [] {
      SqueezeSpaces(s[1..]);
    }
  }

  /** A text whose squeeze is non-empty shows a visible character. */
  lemma {:induction false} SqueezeVisible(s: string, i: nat)
    requires i < |s| && !IsSpace(s[i])
    ensures Squeeze(s) != []
  {
    if i > 0 {
      SqueezeVisible(s[1..], i - 1);
    }
  }

  // --- strip ---

  function StripLeft(s: string): (r: string)
    ensures |r| <= |s|
    ensures r != [] ==> !IsSpace(r[0])
  {
    if s != [] && IsSpace(s[0]) then StripLeft(s[1..]) else s
  }

  function StripRight(s: string): (r: string)
    ensures |r| <= |s|
    ensures r != [] ==> !IsSpace(r[|r| - 1])
    ensures s != [] && !IsSpace(s[0]) ==> r != [] && r[0] == s[0]
  {
    if s != [] && IsSpace(s[|s| - 1]) then StripRight(s[..|s| - 1]) else s
  }

  function Strip(s: string): (r: string)
    ensures |r| <= |s|
    ensures r != [] ==> !IsSpace(r[0]) && !IsSpace(r[|r| - 1])
  {
    StripRight(StripLeft(s))
  }

  lemma {:induction false} StripLeftSqueeze(s: string)
    ensures Squeeze(StripLeft(s)) == Squeeze(s)
  {
    if s != [] && IsSpace(s[0]) {
      StripLeftSqueeze(s[1..]);
    }
  }

  lemma {:induction false} StripRightSqueeze(s: string)
    ensures Squeeze(StripRight(s)) == Squeeze(s)
  {
    if s != [] && IsSpace(s[|s| - 1]) {
      var front := s[..|s| - 1];
      StripRightSqueeze(front);
      SqueezeConcat(front, [s[|s| - 1]]);
      assert s == front + [s[|s| - 1]];
    }
  }

  /** Stripping removes whitespace only, and leaves the empty text exactly when nothing was visible. */
  lemma StripSqueeze(s: string)
    ensures Squeeze(Strip(s)) == Squeeze(s)
    ensures Strip(s) == [] <==> Squeeze(s) == []
  {
    StripLeftSqueeze(s);
    StripRightSqueeze(StripLeft(s));
    if Strip(s) != [] {
      SqueezeVisible(Strip(s), 0);
    }
  }

  // --- splitlines and join ---

  function LineEnd(s: string): (i: nat)
    ensures i <= |s|
    ensures forall k :: 0 <= k < i ==> !IsLineBreak(s[k])
    ensures i < |s| ==> IsLineBreak(s[i])
  {
    if s == [] || IsLineBreak(s[0]) then 0 else 1 + LineEnd(s[1..])
  }

  // A carriage return followed by a line feed is one terminator.
  function BreakLength(s: string, i: nat): (n: nat)
    requires i < |s| && IsLineBreak(s[i])
    ensures n >= 1 && i + n <= |s|
    ensures forall k :: i <= k < i + n ==> IsLineBreak(s[k])
  {
    if s[i] == '\r' && i + 1 < |s| && s[i + 1] == '\n' then 2 else 1
  }

  function SplitLines(s: string): (lines: seq<string>)
    ensures forall line :: line in lines ==> forall k :: 0 <= k < |line| ==> !IsLineBreak(line[k])
    decreases |s|
  {
    if s == [] then []
    else
      var i := LineEnd(s);
      if i == |s| then [s] else [s[..i]] + SplitLines(s[i + BreakLength(s, i)..])
  }

  function Join(separator: string, parts: seq<string>): string {
    if parts == [] then []
    else if |parts| == 1 then parts[0]
    else parts[0] + separator + Join(separator, parts[1..])
  }

  function Concat(parts: seq<string>): string {
    if parts == [] then [] else parts[0] + Concat(parts[1..])
  }

  lemma {:induction false} ConcatAppend(a: seq<string>, b: seq<string>)
    ensures Concat(a + b) == Concat(a) + Concat(b)
  {
    if a == [] {
      assert a + b == b;
    } else {
      assert (a + b)[1..] == a[1..] + b;
      ConcatAppend(a[1..], b);
      Associative(a[0], Concat(a[1..]), Concat(b));
    }
  }

  lemma {:induction false} JoinSqueeze(separator: string, parts: seq<string>)
    requires Squeeze(separator) == []
    ensures Squeeze(Join(separator, parts)) == Squeeze(Concat(parts))
  {
    if |parts| == 1 {
      assert Concat(parts) == parts[0] + Concat(parts[1..]) == parts[0];
    } else if parts != [] {
      JoinSqueeze(separator, parts[1..]);
      SqueezeConcat(parts[0] + separator, Join(separator, parts[1..]));
      SqueezeConcat(parts[0], separator);
      SqueezeConcat(parts[0], Concat(parts[1..]));
    }
  }

  lemma DropMiddle(a: string, m: string, b: string)
    requires forall k :: 0 <= k < |m| ==> IsSpace(m[k])
    ensures Squeeze(a + m + b) == Squeeze(a) + Squeeze(b)
  {
    SqueezeSpaces(m);
    SqueezeConcat(a, m);
    assert Squeeze(a) + [] == Squeeze(a);
    SqueezeConcat(a + m, b);
  }

  lemma Thirds(s: string, i: nat, j: nat)
    requires i <= j <= |s|
    ensures s[..i] + s[i..j] + s[j..] == s
  {
  }

  lemma DropSpaces(s: string, i: nat, j: nat)
    requires i <= j <= |s|
    requires forall k :: i <= k < j ==> IsSpace(s[k])
    ensures Squeeze(s) == Squeeze(s[..i]) + Squeeze(s[j..])
  {
    hide Squeeze, IsSpace;
    Thirds(s, i, j);
    DropMiddle(s[..i], s[i..j], s[j..]);
  }

  lemma ConcatHead(parts: seq<string>)
    requires parts != []
    ensures Squeeze(Concat(parts)) == Squeeze(parts[0]) + Squeeze(Concat(parts[1..]))
  {
    SqueezeConcat(parts[0], Concat(parts[1..]));
  }

  /** Splitting into lines loses line terminators only. */
  lemma {:induction false} SplitLinesSqueeze(s: string)
    ensures Squeeze(Concat(SplitLines(s))) == Squeeze(s)
    decreases |s|
  {
    if s != [] {
      var i := LineEnd(s);
      if i == |s| {
        assert Concat([s]) == s + Concat([]) == s;
      } else {
        var j := i + BreakLength(s, i);
        var rest := SplitLines(s[j..]);
        SplitLinesSqueeze(s[j..]);
        DropSpaces(s, i, j);
        assert ([s[..i]] + rest)[1..] == rest;
        SqueezeConcat(s[..i], Concat(rest));
      }
    }
  }
}

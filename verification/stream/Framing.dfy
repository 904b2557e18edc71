/** Incremental framing of an event stream. */
module Framing {
  import opened Wrappers

  // --- Boundaries: two line ends in a row, each with or without a carriage return ---

  const BOUNDARIES: set<string> := {"\n\n", "\n\r\n", "\r\n\n", "\r\n\r\n"}

  predicate Has(s: string, i: nat, c: char) {
    i < |s| && s[i] == c
  }

  // The length of a line end: a line feed, with or without a carriage return before it.
  function LineEndAt(s: string, i: nat): (n: nat)
    ensures i + n <= |s| || n == 0
  {
    if Has(s, i, '\n') then 1 else if Has(s, i, '\r') && Has(s, i + 1, '\n') then 2 else 0
  }

  /** The length of the boundary that starts at a position, or zero. */
  function BoundaryAt(s: string, i: nat): (n: nat)
    ensures n > 0 ==> i + n <= |s|
  {
    var first := LineEndAt(s, i);
    var second := LineEndAt(s, i + first);
    if first > 0 && second > 0 then first + second else 0
  }

  /** The boundaries are the four combinations of two line ends. */
  lemma BoundaryIsOneOfFour(s: string, i: nat)
    requires i <= |s|
    ensures BoundaryAt(s, i) > 0 <==> exists b :: b in BOUNDARIES && b <= s[i..]
    ensures BoundaryAt(s, i) > 0 ==> s[i..i + BoundaryAt(s, i)] in BOUNDARIES
  {
    var n := BoundaryAt(s, i);
    if n > 0 {
      var b := s[i..i + n];
      assert b == if n == 2 then "\n\n" else if n == 4 then "\r\n\r\n" else if s[i] == '\n' then "\n\r\n" else "\r\n\n";
      assert b in BOUNDARIES && b <= s[i..];
    }
    forall b | b in BOUNDARIES && b <= s[i..]
      ensures n > 0
    {
      assert forall k :: 0 <= k < |b| ==> s[i..][k] == s[i + k] == b[k];
    }
  }

  /** The leftmost boundary at or after a position. */
  function FindBoundary(s: string, from: nat): (at: Option<nat>)
    requires from <= |s|
    ensures at.Some? ==> from <= at.value < |s| && BoundaryAt(s, at.value) > 0
    ensures at.Some? ==> forall k :: from <= k < at.value ==> BoundaryAt(s, k) == 0
    ensures at.None? ==> forall k :: from <= k <= |s| ==> BoundaryAt(s, k) == 0
    decreases |s| - from
  {
    if BoundaryAt(s, from) > 0 then Some(from)
    else if from == |s| then None
    else FindBoundary(s, from + 1)
  }

  function FirstBoundary(s: string): Option<nat> {
    FindBoundary(s, 0)
  }

  // A boundary depends only on the characters it spans.
  lemma BoundaryExtends(p: string, q: string, i: nat)
    requires BoundaryAt(p, i) > 0
    ensures BoundaryAt(p + q, i) == BoundaryAt(p, i)
  {
  }

  // More text cannot create an earlier boundary than one already seen.
  lemma NothingEarlier(p: string, q: string, k: nat, i: nat)
    requires k < i && BoundaryAt(p, k) == 0 && BoundaryAt(p, i) > 0
    ensures BoundaryAt(p + q, k) == 0
  {
  }

  /** A boundary found in a prefix of a text is the first boundary of the text. */
  lemma FirstBoundaryIsStable(p: string, q: string)
    requires FirstBoundary(p).Some?
    ensures FirstBoundary(p + q) == FirstBoundary(p)
    ensures BoundaryAt(p + q, FirstBoundary(p).value) == BoundaryAt(p, FirstBoundary(p).value)
  {
    hide BoundaryAt;
    var i := FirstBoundary(p).value;
    BoundaryExtends(p, q, i);
    forall k | 0 <= k < i
      ensures BoundaryAt(p + q, k) == 0
    {
      NothingEarlier(p, q, k, i);
    }
  }

  // --- Blocks ---

  datatype Framed = Framed(blocks: seq<string>, rest: string)

  /** The complete blocks of a text, and what remains open. */
  function Blocks(s: string): Framed
    decreases |s|
  {
    var at := FirstBoundary(s);
    if at.None? then Framed([], s)
    else
      var tail := Blocks(s[at.value + BoundaryAt(s, at.value)..]);
      Framed([s[..at.value]] + tail.blocks, tail.rest)
  }

  function After(a: Framed, b: Framed): Framed {
    Framed(a.blocks + b.blocks, b.rest)
  }

  /** Framing may stop anywhere and go on with the open rest. */
  lemma {:induction false} BlocksResume(p: string, q: string)
    ensures Blocks(p + q) == After(Blocks(p), Blocks(Blocks(p).rest + q))
    decreases |p|
  {
    hide BoundaryAt, FirstBoundary;
    if FirstBoundary(p).Some? {
      var i := FirstBoundary(p).value;
      var n := BoundaryAt(p, i);
      BoundaryInside(p);
      FirstBoundaryIsStable(p, q);
      assert (p + q)[i + n..] == p[i + n..] + q && (p + q)[..i] == p[..i];
      BlocksResume(p[i + n..], q);
      var tail := Blocks(p[i + n..]);
      assert [p[..i]] + (tail.blocks + Blocks(tail.rest + q).blocks) == ([p[..i]] + tail.blocks)
        + Blocks(tail.rest + q).blocks;
    } else {
      assert [] + Blocks(p + q).blocks == Blocks(p + q).blocks;
    }
  }

  lemma BoundaryInside(p: string)
    requires FirstBoundary(p).Some?
    ensures FirstBoundary(p).value < |p|
    ensures 0 < BoundaryAt(p, FirstBoundary(p).value)
            && FirstBoundary(p).value + BoundaryAt(p, FirstBoundary(p).value) <= |p|
  {
  }

  function Joined(chunks: seq<string>): string {
    if chunks == [] then "" else Joined(chunks[..|chunks| - 1]) + chunks[|chunks| - 1]
  }

  /** Pushing chunks one by one into an open rest. */
  function PushAll(rest: string, chunks: seq<string>): Framed {
    if chunks == [] then Blocks(rest)
    else
      var before := PushAll(rest, chunks[..|chunks| - 1]);
      After(before, Blocks(before.rest + chunks[|chunks| - 1]))
  }

  /** Whatever the cuts, the blocks and the open rest are those of the whole text. */
  lemma {:induction false} FramingIgnoresCuts(rest: string, chunks: seq<string>)
    ensures PushAll(rest, chunks) == Blocks(rest + Joined(chunks))
    decreases |chunks|
  {
    hide Blocks;
    if chunks == [] {
      assert rest + "" == rest;
    } else {
      var front := chunks[..|chunks| - 1];
      var last := chunks[|chunks| - 1];
      FramingIgnoresCuts(rest, front);
      BlocksResume(rest + Joined(front), last);
      assert rest + (Joined(front) + last) == (rest + Joined(front)) + last;
    }
  }

  // --- What the blocks are ---

  predicate NoBoundary(s: string) {
    FirstBoundary(s).None?
  }

  lemma PrefixHasNone(s: string, i: nat)
    requires i <= |s| && forall k :: 0 <= k < i ==> BoundaryAt(s, k) == 0
    ensures NoBoundary(s[..i])
  {
    forall k | 0 <= k <= i
      ensures BoundaryAt(s[..i], k) == 0
    {
      if BoundaryAt(s[..i], k) > 0 {
        BoundaryExtends(s[..i], s[i..], k);
        assert s[..i] + s[i..] == s;
        assert k < i;
      }
    }
  }

  /** No block and no open rest contains a boundary. */
  lemma {:induction false} BlocksHaveNone(s: string)
    ensures NoBoundary(Blocks(s).rest) && forall b :: b in Blocks(s).blocks ==> NoBoundary(b)
    decreases |s|
  {
    hide BoundaryAt;
    var at := FirstBoundary(s);
    if at.Some? {
      PrefixHasNone(s, at.value);
      BoundaryInside(s);
      hide FirstBoundary;
      BlocksHaveNone(s[at.value + BoundaryAt(s, at.value)..]);
    }
  }

  // Each block followed by its separator.
  function Interleave(blocks: seq<string>, separators: seq<string>): string
    requires |blocks| == |separators|
  {
    if blocks == [] then "" else blocks[0] + separators[0] + Interleave(blocks[1..], separators[1..])
  }

  lemma InterleaveFirst(head: string, here: string, blocks: seq<string>, separators: seq<string>, rest: string)
    requires |blocks| == |separators|
    ensures Interleave([head] + blocks, [here] + separators) + rest == head + here
            + (Interleave(blocks, separators) + rest)
  {
    assert ([head] + blocks)[1..] == blocks && ([here] + separators)[1..] == separators;
    assert head + here + Interleave(blocks, separators) + rest == head + here + (Interleave(blocks, separators) + rest);
  }

  /** Framing loses nothing: blocks, boundaries and rest make up the text again. */
  lemma {:induction false} BlocksConserve(s: string) returns (separators: seq<string>)
    ensures |separators| == |Blocks(s).blocks| && forall b :: b in separators ==> b in BOUNDARIES
    ensures Interleave(Blocks(s).blocks, separators) + Blocks(s).rest == s
    decreases |s|
  {
    hide BoundaryAt, FirstBoundary, BOUNDARIES, Interleave;
    var at := FirstBoundary(s);
    if at.None? {
      separators := [];
      NothingInterleaved();
      assert "" + s == s;
    } else {
      BoundaryInside(s);
      var i, n := at.value, BoundaryAt(s, at.value);
      BoundaryIsOneOfFour(s, i);
      var more := BlocksConserve(s[i + n..]);
      separators := [s[i..i + n]] + more;
      InterleaveFirst(s[..i], s[i..i + n], Blocks(s[i + n..]).blocks, more, Blocks(s).rest);
      assert s == s[..i] + s[i..i + n] + s[i + n..];
    }
  }

  lemma NothingInterleaved()
    ensures Interleave([], []) == ""
  {
  }

  // --- Round trip with a writer that ends every block with one blank line ---

  function Frame(blocks: seq<string>): string {
    if blocks == [] then "" else blocks[0] + "\n\n" + Frame(blocks[1..])
  }

  /** A block can be framed: the boundary written after it is the first one read. */
  predicate Framable(block: string) {
    FirstBoundary(block + "\n\n") == Some(|block|) && BoundaryAt(block + "\n\n", |block|) == 2
  }

  /** A block can be framed exactly when it holds no boundary and does not end in a line end. */
  lemma FramableIff(block: string)
    ensures Framable(block) <==> NoBoundary(block) && (block == "" || block[|block| - 1] !in {'\n', '\r'})
  {
    var s := block + "\n\n";
    assert BoundaryAt(s, |block|) == 2;
    if NoBoundary(block) && (block == "" || block[|block| - 1] !in {'\n', '\r'}) {
      forall k | 0 <= k < |block|
        ensures BoundaryAt(s, k) == 0
      {
        assert BoundaryAt(block, k) == 0;
      }
    } else if !NoBoundary(block) {
      FirstBoundaryIsStable(block, "\n\n");
    } else {
      assert BoundaryAt(s, |block| - 1) > 0;
    }
  }

  /** Reading back what was framed gives the blocks, with nothing left open. */
  lemma {:induction false} FrameRoundTrip(blocks: seq<string>)
    requires forall b :: b in blocks ==> Framable(b)
    ensures Blocks(Frame(blocks)) == Framed(blocks, "")
    decreases |blocks|
  {
    if blocks != [] {
      var head, tail := blocks[0] + "\n\n", Frame(blocks[1..]);
      assert blocks[0] in blocks;
      FirstBoundaryIsStable(head, tail);
      FrameRoundTrip(blocks[1..]);
      hide BoundaryAt, FirstBoundary;
      assert (head + tail)[|head|..] == tail && (head + tail)[..|blocks[0]|] == blocks[0];
      assert [blocks[0]] + blocks[1..] == blocks;
    }
  }

  // --- The parser object ---

  class Parser {
    var buffer: string

    constructor ()
      ensures buffer == ""
    {
      buffer := "";
    }

    /** One network chunk: the blocks it completes, in order. */
    method Push(chunk: string) returns (blocks: seq<string>)
      modifies this
      ensures Framed(blocks, buffer) == Blocks(old(buffer) + chunk)
    {
      hide BoundaryAt, FirstBoundary;
      buffer := buffer + chunk;
      blocks := [];
      assert [] + Blocks(buffer).blocks == Blocks(buffer).blocks;
      while true
        invariant Blocks(old(buffer) + chunk) == After(Framed(blocks, ""), Blocks(buffer))
        decreases |buffer|
      {
        var boundary := FirstBoundary(buffer);
        if boundary.None? {
          assert blocks + [] == blocks;
          return;
        }
        BoundaryInside(buffer);
        var block := buffer[..boundary.value];
        ghost var tail := Blocks(buffer[boundary.value + BoundaryAt(buffer, boundary.value)..]);
        assert blocks + ([block] + tail.blocks) == blocks + [block] + tail.blocks;
        buffer := buffer[boundary.value + BoundaryAt(buffer, boundary.value)..];
        blocks := blocks + [block];
      }
    }
  }
}

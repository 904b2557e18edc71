/** The client's side of an event stream. */
module Delivery {
  import opened Framing
  import opened EventBlocks

  datatype Client = Client(last: nat, terminal: bool, connected: bool, delivered: seq<RunEvent>)

  const NEW_CLIENT: Client := Client(0, false, false, [])

  datatype Step = Step(client: Client, faulty: bool)

  /** Old numbers are ignored, the next number is delivered, a gap is a fault; any number may come first. */
  function OnEvent(c: Client, e: RunEvent): Step {
    if e.id <= c.last then Step(c, false)
    else if c.last > 0 && e.id != c.last + 1 then Step(c, true)
    else Step(c.(last := e.id, delivered := c.delivered + [e], terminal := c.terminal || IsTerminal(e.kind)), false)
  }

  function OnBlock(c: Client, block: string, codec: Codec): Step {
    var o := ParseBlock(block, codec);
    var c1 := if o.connected then c.(connected := true) else c;
    if o.faulty then Step(c1, true) else if o.event.None? then Step(c1, false) else OnEvent(c1, o.event.value)
  }

  function OnBlocks(c: Client, blocks: seq<string>, codec: Codec): Step {
    if blocks == [] then Step(c, false)
    else
      var before := OnBlocks(c, blocks[..|blocks| - 1], codec);
      if before.faulty then before else OnBlock(before.client, blocks[|blocks| - 1], codec)
  }

  lemma {:induction false} OnBlocksResume(c: Client, a: seq<string>, b: seq<string>, codec: Codec)
    ensures OnBlocks(c, a + b, codec)
         == if OnBlocks(c, a, codec).faulty then OnBlocks(c, a, codec)
           else OnBlocks(OnBlocks(c, a, codec).client, b, codec)
    decreases |b|
  {
    hide OnBlock;
    if b == [] {
      assert a + b == a;
    } else {
      OnBlocksResume(c, a, b[..|b| - 1], codec);
      assert (a + b)[..|a + b| - 1] == a + b[..|b| - 1];
    }
  }

  // --- Reading one response, chunk by chunk, until a terminal event ---

  datatype Reading = Reading(client: Client, rest: string, faulty: bool)

  function Read(c: Client, chunks: seq<string>, codec: Codec): Reading {
    if chunks == [] then Reading(c, "", false)
    else
      var before := Read(c, chunks[..|chunks| - 1], codec);
      if before.faulty || before.client.terminal then before
      else
        var framed := Blocks(before.rest + chunks[|chunks| - 1]);
        var step := OnBlocks(before.client, framed.blocks, codec);
        Reading(step.client, framed.rest, step.faulty)
  }

  // The first j blocks of the text were handled; all of them unless a fault or a terminal event stopped the reading.
  predicate Handled(c: Client, text: string, codec: Codec, r: Reading, j: nat) {
    && j <= |Blocks(text).blocks| && OnBlocks(c, Blocks(text).blocks[..j], codec) == Step(r.client, r.faulty)
    && (!r.faulty && !r.client.terminal ==> j == |Blocks(text).blocks| && r.rest == Blocks(text).rest)
  }

  /** Reading handles a prefix of the blocks of the whole text, wherever the text was cut. */
  lemma {:induction false} ReadHandlesPrefix(c: Client, chunks: seq<string>, codec: Codec) returns (j: nat)
    ensures Handled(c, Joined(chunks), codec, Read(c, chunks, codec), j)
    decreases |chunks|
  {
    hide Blocks, OnBlock;
    if chunks == [] {
      j := 0;
      NothingFramed();
    } else {
      var front, last := chunks[..|chunks| - 1], chunks[|chunks| - 1];
      var before := Read(c, front, codec);
      j := ReadHandlesPrefix(c, front, codec);
      var seen := Blocks(Joined(front));
      BlocksResume(Joined(front), last);
      var framed := Blocks(seen.rest + last);
      var all := Blocks(Joined(chunks)).blocks;
      assert all == seen.blocks + framed.blocks;
      assert all[..j] == seen.blocks[..j];
      if !before.faulty && !before.client.terminal {
        assert seen.blocks[..j] == seen.blocks;
        OnBlocksResume(c, seen.blocks, framed.blocks, codec);
        j := |all|;
        assert all[..j] == all;
      }
    }
  }

  lemma NothingFramed()
    ensures Blocks("") == Framed([], "")
  {
  }

  // A fault or a terminal event: reading stops after the chunk that brings it.
  predicate Halted(step: Step) {
    step.faulty || step.client.terminal
  }

  /** The reading of these blocks halts with the first `stop` of them, or with none of them if there are fewer. */
  ghost predicate HaltsAt(c: Client, blocks: seq<string>, codec: Codec, stop: nat) {
    forall j :: 0 <= j <= |blocks| ==> (Halted(OnBlocks(c, blocks[..j], codec)) <==> stop <= j)
  }

  /** The first `fault` blocks are the fewest whose handling ends in a fault. */
  ghost predicate FailsAt(c: Client, blocks: seq<string>, codec: Codec, fault: nat) {
    forall j :: 0 <= j <= |blocks| ==> (OnBlocks(c, blocks[..j], codec).faulty <==> fault <= j)
  }

  /** How many blocks are complete when the chunk that completes the first `stop` blocks has been read. */
  function Reached(chunks: seq<string>, stop: nat): nat {
    if chunks == [] then 0
    else
      var before := Reached(chunks[..|chunks| - 1], stop);
      if stop <= before then before else |Blocks(Joined(chunks)).blocks|
  }

  lemma HaltsAtPrefix(c: Client, a: seq<string>, b: seq<string>, codec: Codec, stop: nat)
    requires HaltsAt(c, a + b, codec, stop)
    ensures HaltsAt(c, a, codec, stop)
  {
    hide OnBlocks;
    forall j | 0 <= j <= |a|
      ensures Halted(OnBlocks(c, a[..j], codec)) <==> stop <= j
    {
      assert (a + b)[..j] == a[..j];
    }
  }

  /** Reading handles exactly the blocks that are complete at the end of the chunk in which it halts. */
  lemma {:induction false} ReadHandlesReached(c: Client, chunks: seq<string>, codec: Codec, stop: nat)
    requires HaltsAt(c, Blocks(Joined(chunks)).blocks, codec, stop)
    ensures Reached(chunks, stop) <= |Blocks(Joined(chunks)).blocks|
    ensures stop <= |Blocks(Joined(chunks)).blocks| ==> stop <= Reached(chunks, stop)
    ensures |Blocks(Joined(chunks)).blocks| < stop ==> Reached(chunks, stop) == |Blocks(Joined(chunks)).blocks|
    ensures var r := Read(c, chunks, codec);
            && Step(r.client, r.faulty) == OnBlocks(c, Blocks(Joined(chunks)).blocks[..Reached(chunks, stop)], codec)
            && (!Halted(Step(r.client, r.faulty)) ==> r.rest == Blocks(Joined(chunks)).rest)
    decreases |chunks|
  {
    hide Blocks, OnBlock;
    if chunks == [] {
      NothingFramed();
    } else {
      var front, last := chunks[..|chunks| - 1], chunks[|chunks| - 1];
      var seen := Blocks(Joined(front));
      BlocksResume(Joined(front), last);
      var framed := Blocks(seen.rest + last);
      var all := Blocks(Joined(chunks)).blocks;
      assert all == seen.blocks + framed.blocks;
      HaltsAtPrefix(c, seen.blocks, framed.blocks, codec, stop);
      ReadHandlesReached(c, front, codec, stop);
      var before := Reached(front, stop);
      assert all[..before] == seen.blocks[..before];
      assert Halted(OnBlocks(c, all[..before], codec)) <==> stop <= before;
      if before < stop {
        assert seen.blocks[..before] == seen.blocks;
        OnBlocksResume(c, seen.blocks, framed.blocks, codec);
        assert all[..|all|] == all;
      }
    }
  }

  lemma {:induction false} TerminalStays(c: Client, blocks: seq<string>, i: nat, j: nat, codec: Codec)
    requires i <= j <= |blocks|
    ensures OnBlocks(c, blocks[..i], codec).client.terminal ==> OnBlocks(c, blocks[..j], codec).client.terminal
    ensures OnBlocks(c, blocks[..i], codec).faulty ==>
            OnBlocks(c, blocks[..j], codec) == OnBlocks(c, blocks[..i], codec)
    decreases j
  {
    hide ParseBlock;
    if i < j {
      TerminalStays(c, blocks, i, j - 1, codec);
      assert blocks[..j][..j - 1] == blocks[..j - 1];
    }
  }

  /**
    * Two ways of cutting the same text always agree on whether a terminal event was delivered, and what one of them
    * delivers begins what the other delivers. They agree on the verdict exactly when the chunk in which reading halts
    * completes the first faulty block under both cuts or under neither; when nothing halts the reading they agree on
    * all.
    */
  lemma CutsAgree(c: Client, a: seq<string>, b: seq<string>, codec: Codec, stop: nat, fault: nat)
    requires Joined(a) == Joined(b)
    requires HaltsAt(c, Blocks(Joined(a)).blocks, codec, stop) && FailsAt(c, Blocks(Joined(a)).blocks, codec, fault)
    ensures var x, y := Read(c, a, codec), Read(c, b, codec);
            && x.client.terminal == y.client.terminal
            && (x.client.delivered <= y.client.delivered || y.client.delivered <= x.client.delivered)
            && (x.faulty == y.faulty <==> (fault <= Reached(a, stop) <==> fault <= Reached(b, stop)))
            && (Reached(a, stop) == Reached(b, stop) ==> x.client == y.client)
            && (|Blocks(Joined(a)).blocks| < stop ==> x == y)
  {
    ReadHandlesReached(c, a, codec, stop);
    ReadHandlesReached(c, b, codec, stop);
    var i, j := Reached(a, stop), Reached(b, stop);
    var blocks := Blocks(Joined(a)).blocks;
    hide Blocks, Reached, Read, OnBlocks;
    if i <= j {
      HandledGrows(c, blocks, i, j, codec);
      TerminalStays(c, blocks, i, j, codec);
    } else {
      HandledGrows(c, blocks, j, i, codec);
      TerminalStays(c, blocks, j, i, codec);
    }
    if stop <= |blocks| {
      TerminalStays(c, blocks, stop, i, codec);
      TerminalStays(c, blocks, stop, j, codec);
      assert Halted(OnBlocks(c, blocks[..stop], codec));
    }
  }

  /** Such places exist for every text: the first halt, and the first fault, which is the halt or comes after it. */
  lemma {:induction false} HaltAndFaultExist(c: Client, blocks: seq<string>, codec: Codec)
    returns (stop: nat, fault: nat)
    ensures HaltsAt(c, blocks, codec, stop) && FailsAt(c, blocks, codec, fault) && stop <= fault <= |blocks| + 1
    decreases |blocks|
  {
    hide OnBlock;
    if blocks == [] {
      stop, fault := if c.terminal then 0 else 1, 1;
      assert blocks[..0] == [];
    } else {
      var n := |blocks| - 1;
      stop, fault := HaltAndFaultExist(c, blocks[..n], codec);
      forall j | 0 <= j <= n
        ensures blocks[..j] == blocks[..n][..j]
      {
      }
      assert blocks[..n + 1] == blocks;
      TerminalStays(c, blocks, n, n + 1, codec);
      var step := OnBlocks(c, blocks, codec);
      assert blocks[..n][..n] == blocks[..n];
      if n < stop && !Halted(step) {
        stop := n + 2;
      }
      if n < fault && !step.faulty {
        fault := n + 2;
      }
    }
  }

  lemma DeliveredGrows(c: Client, block: string, codec: Codec)
    ensures c.delivered <= OnBlock(c, block, codec).client.delivered
  {
    hide ParseBlock;
  }

  lemma {:induction false} HandledGrows(c: Client, blocks: seq<string>, i: nat, j: nat, codec: Codec)
    requires i <= j <= |blocks|
    ensures OnBlocks(c, blocks[..i], codec).client.delivered <= OnBlocks(c, blocks[..j], codec).client.delivered
    decreases j
  {
    hide OnBlock;
    if i < j {
      HandledGrows(c, blocks, i, j - 1, codec);
      assert blocks[..j][..j - 1] == blocks[..j - 1];
      DeliveredGrows(OnBlocks(c, blocks[..j - 1], codec).client, blocks[j - 1], codec);
    }
  }

  // --- What is delivered, whatever the other side sends ---

  predicate Contiguous(events: seq<RunEvent>) {
    forall i :: 0 < i < |events| ==> events[i].id == events[i - 1].id + 1
  }

  /** The last number is that of the last delivered event, and the numbers run on without gap or repetition. */
  predicate Tracked(c: Client) {
    && Contiguous(c.delivered)
    && (c.delivered == [] ==> c.last == 0)
    && (c.delivered != [] ==> 0 < c.last == c.delivered[|c.delivered| - 1].id)
    && (c.terminal <==> exists e :: e in c.delivered && IsTerminal(e.kind))
  }

  lemma EventTracked(c: Client, e: RunEvent)
    requires Tracked(c)
    ensures Tracked(OnEvent(c, e).client)
  {
  }

  lemma {:induction false} BlocksTracked(c: Client, blocks: seq<string>, codec: Codec)
    requires Tracked(c)
    ensures Tracked(OnBlocks(c, blocks, codec).client)
    decreases |blocks|
  {
    if blocks != [] {
      BlocksTracked(c, blocks[..|blocks| - 1], codec);
      var before := OnBlocks(c, blocks[..|blocks| - 1], codec);
      hide Tracked, ParseBlock, OnEvent;
      if !before.faulty {
        var o := ParseBlock(blocks[|blocks| - 1], codec);
        var c1 := if o.connected then before.client.(connected := true) else before.client;
        ConnectedTracked(before.client, c1);
        if o.event.Some? {
          EventTracked(c1, o.event.value);
        }
      }
    }
  }

  lemma ConnectedTracked(c: Client, c1: Client)
    requires Tracked(c) && c1 == c.(connected := c1.connected)
    ensures Tracked(c1)
  {
  }

  // --- One connection ---

  datatype Ending = Finished | Broken | Closed

  // Refused before any byte, or opened with some chunks, the decoder's last text, and the way it ended.
  datatype Attempt = Refused(retryable: bool) | Opened(chunks: seq<string>, flush: string, ending: Ending)

  datatype Verdict = Completed | Retryable | Failed | UserClosed

  function Connect(c: Client, a: Attempt, codec: Codec): (Client, Verdict) {
    var c0 := c.(connected := false);
    if a.Refused? then (c0, if a.retryable then Retryable else Failed)
    else
      var r := Read(c0, a.chunks, codec);
      if r.faulty then (r.client, Failed)
      else if !r.client.terminal && a.ending.Broken? then (r.client, Retryable)
      else if !r.client.terminal && a.ending.Closed? then (r.client, UserClosed)
      else
        var step := OnBlocks(r.client, Blocks(r.rest + a.flush).blocks, codec);
        if step.faulty || (!step.client.connected && !step.client.terminal) then (step.client, Failed)
        else (step.client, if step.client.terminal then Completed else Retryable)
  }

  lemma ConnectTracked(c: Client, a: Attempt, codec: Codec)
    requires Tracked(c)
    ensures Tracked(Connect(c, a, codec).0)
  {
    hide Tracked, Blocks, OnBlock;
    var c0 := c.(connected := false);
    ConnectedTracked(c, c0);
    if a.Opened? {
      var j := ReadHandlesPrefix(c0, a.chunks, codec);
      var r := Read(c0, a.chunks, codec);
      BlocksTracked(c0, Blocks(Joined(a.chunks)).blocks[..j], codec);
      BlocksTracked(r.client, Blocks(r.rest + a.flush).blocks, codec);
    }
  }

  // --- The reconnect loop ---

  datatype RunResult = RunResult(client: Client, connections: nat, verdict: Verdict)

  /** Each attempt sees the number of the attempt and the Last-Event-ID it carries. */
  function RunFrom(c: Client, attempt: nat, max: nat, server: (nat, nat) -> Attempt, codec: Codec): RunResult
    requires attempt <= max
    decreases max - attempt
  {
    var (c1, verdict) := Connect(c, server(attempt, c.last), codec);
    if verdict.Retryable? && attempt < max then RunFrom(c1, attempt + 1, max, server, codec)
    else RunResult(c1, attempt + 1, if verdict.Retryable? then Failed else verdict)
  }

  /**
    * Whatever is received over however many connections, the delivered numbers form one contiguous, strictly increasing
    * run, and the loop stops after at most max + 1 connections.
    */
  lemma {:induction false} DeliveryIsContiguous(c: Client, attempt: nat, max: nat, server: (nat, nat) -> Attempt,
                                                codec: Codec)
    requires attempt <= max && Tracked(c)
    ensures var r := RunFrom(c, attempt, max, server, codec);
            && Tracked(r.client) && attempt < r.connections <= max + 1 && !r.verdict.Retryable?
            && forall i, j :: 0 <= i < j < |r.client.delivered| ==>
               r.client.delivered[j].id == r.client.delivered[i].id + (j - i)
    decreases max - attempt
  {
    ConnectTracked(c, server(attempt, c.last), codec);
    var (c1, verdict) := Connect(c, server(attempt, c.last), codec);
    if verdict.Retryable? && attempt < max {
      DeliveryIsContiguous(c1, attempt + 1, max, server, codec);
    } else {
      forall i, j | 0 <= i < j < |c1.delivered|
        ensures c1.delivered[j].id == c1.delivered[i].id + (j - i)
      {
        ContiguousSpan(c1.delivered, i, j);
      }
    }
  }

  lemma {:induction false} ContiguousSpan(events: seq<RunEvent>, i: nat, j: nat)
    requires Contiguous(events) && i < j < |events|
    ensures events[j].id == events[i].id + (j - i)
    decreases j
  {
    if i < j - 1 {
      ContiguousSpan(events, i, j - 1);
    }
  }
}

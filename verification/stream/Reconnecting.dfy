/** What a run of connections amounts to. */
module Reconnecting {
  import opened Framing
  import opened EventBlocks
  import opened Delivery
  import opened ExactlyOnce

  // --- The connections of a run ---

  /**
    * The clients between successive connections, and how each connection ended: every one but the last broke off, and
    * the last did not, or was the last that is allowed.
    */
  ghost predicate AreConnections(clients: seq<Client>, verdicts: seq<Verdict>, attempt: nat, max: nat,
                                 server: (nat, nat) -> Attempt, codec: Codec)
  {
    && verdicts != [] && |clients| == |verdicts| + 1 && attempt + |verdicts| <= max + 1
    && (forall k :: 0 <= k < |verdicts| ==>
          Connect(clients[k], server(attempt + k, clients[k].last), codec) == (clients[k + 1], verdicts[k]))
    && (forall k :: 0 <= k < |verdicts| - 1 ==> verdicts[k].Retryable?)
    && (verdicts[|verdicts| - 1].Retryable? ==> attempt + |verdicts| == max + 1)
  }

  lemma MoreConnections(c: Client, c1: Client, verdict: Verdict, clients: seq<Client>, verdicts: seq<Verdict>,
                        attempt: nat, max: nat, server: (nat, nat) -> Attempt, codec: Codec)
    requires AreConnections(clients, verdicts, attempt + 1, max, server, codec) && clients[0] == c1
    requires Connect(c, server(attempt, c.last), codec) == (c1, verdict) && verdict.Retryable?
    ensures AreConnections([c] + clients, [verdict] + verdicts, attempt, max, server, codec)
  {
    hide Connect;
    var all, ends := [c] + clients, [verdict] + verdicts;
    forall k | 0 <= k < |ends|
      ensures Connect(all[k], server(attempt + k, all[k].last), codec) == (all[k + 1], ends[k])
      ensures k < |ends| - 1 ==> ends[k].Retryable?
    {
      if k > 0 {
        assert all[k] == clients[k - 1] && ends[k] == verdicts[k - 1];
      }
    }
    assert ends[|ends| - 1] == verdicts[|verdicts| - 1];
  }

  /**
    * A run is its connections: it ends with the first one that does not break off, or with the last that is allowed,
    * and in that case it has failed.
    */
  lemma {:induction false} RunIsConnections(c: Client, attempt: nat, max: nat, server: (nat, nat) -> Attempt,
                                            codec: Codec)
    returns (clients: seq<Client>, verdicts: seq<Verdict>)
    requires attempt <= max
    ensures AreConnections(clients, verdicts, attempt, max, server, codec) && clients[0] == c
    ensures var r := RunFrom(c, attempt, max, server, codec);
            var last := verdicts[|verdicts| - 1];
            && r.client == clients[|verdicts|] && r.connections == attempt + |verdicts|
            && r.verdict == (if last.Retryable? then Failed else last)
            && (last.Retryable? ==> r.connections == max + 1)
    decreases max - attempt
  {
    hide Connect;
    var (c1, verdict) := Connect(c, server(attempt, c.last), codec);
    if verdict.Retryable? && attempt < max {
      var more, ends := RunIsConnections(c1, attempt + 1, max, server, codec);
      MoreConnections(c, c1, verdict, more, ends, attempt, max, server, codec);
      clients, verdicts := [c] + more, [verdict] + ends;
    } else {
      clients, verdicts := [c, c1], [verdict];
    }
  }

  // --- One connection ---

  // The log ends with its only terminal event.
  predicate Concluded(log: seq<RunEvent>) {
    log != [] && IsTerminal(log[|log| - 1].kind) && EndsOnce(log)
  }

  // Refused for now, broken off anywhere, or ended after the confirmation.
  ghost predicate BreaksOff(a: Attempt, last: nat, from: nat, stream: string, log: seq<RunEvent>, codec: Codec) {
    && Answers(a, last, from, stream, log, codec)
    && (if a.Refused? then a.retryable
        else a.ending.Broken? || (a.ending.Finished? && Blocks(Joined(a.chunks)).blocks != []))
  }

  // The response arrives with everything that the log holds from some position on.
  ghost predicate ArrivesWhole(a: Attempt, last: nat, from: nat, stream: string, log: seq<RunEvent>, codec: Codec) {
    && a.Opened? && (last > 0 ==> from <= last)
    && exists items ::
         Arrives(a, stream, items, codec) && Joined(a.chunks) == Frame(ResponseBlocks(stream, items, codec))
         && from < |log| && EventsOf(items) == log[from..]
  }

  // A client that has followed the log so far.
  ghost predicate OnTrack(c: Client, log: seq<RunEvent>, first: nat) {
    InLog(c, log, first) && Tracked(c)
  }

  lemma TerminalIsEnd(c: Client, log: seq<RunEvent>, first: nat)
    requires OnTrack(c, log, first) && Concluded(log)
    ensures c.terminal <==> c.last == |log|
    ensures c.terminal ==> c.delivered == log[first..]
  {
    if c.terminal {
      var i :| 0 <= i < |c.delivered| && IsTerminal(c.delivered[i].kind);
      assert c.delivered[i] == log[first + i];
    }
    if c.last == |log| {
      assert c.delivered[|c.delivered| - 1] == log[|log| - 1];
    }
  }

  lemma {:induction false} ReadTracked(c: Client, chunks: seq<string>, codec: Codec)
    requires Tracked(c)
    ensures Tracked(Read(c, chunks, codec).client)
  {
    hide Tracked, Blocks, OnBlocks, Read;
    var j := ReadHandlesPrefix(c, chunks, codec);
    BlocksTracked(c, Blocks(Joined(chunks)).blocks[..j], codec);
  }

  /** A connection that breaks off is retried, unless the end of the log had already come. */
  lemma BreakIsRetried(c: Client, a: Attempt, from: nat, stream: string, log: seq<RunEvent>, first: nat, codec: Codec)
    returns (first': nat)
    requires Faithful(codec) && SingleLine(stream) && IsLog(log) && Concluded(log) && OnTrack(c, log, first)
    requires BreaksOff(a, c.last, from, stream, log, codec) && c.last < |log|
    ensures c.last > 0 ==> first' == first
    ensures var (c1, verdict) := Connect(c, a, codec);
            && OnTrack(c1, log, first') && c.last <= c1.last && (c.last == 0 < c1.last ==> first' == from)
            && verdict == if c1.last == |log| then Completed else Retryable
  {
    first' := first;
    hide SendsFrom, Arrives, IsLog, Blocks, OnBlocks, Read, Faithful, SingleLine, InLog, Tracked, Concluded;
    var c0 := c.(connected := false);
    SameTrack(c, log, first);
    if a.Opened? {
      var items :| Arrives(a, stream, items, codec) && SendsFrom(items, log, from);
      first' := ReadStaysInLog(c0, a, stream, items, log, from, first, codec);
      ReadTracked(c0, a.chunks, codec);
      TerminalIsEnd(Read(c0, a.chunks, codec).client, log, first');
    } else {
      TerminalIsEnd(c0, log, first);
    }
  }

  /**
    * How a connection ends: what broke off is retried and what the user closed is not, a fault is final, and a response
    * that ends is retried only when it was confirmed and brought no terminal event.
    */
  lemma EndingsDecide(c: Client, a: Attempt, codec: Codec)
    requires !c.terminal
    ensures var (c1, verdict) := Connect(c, a, codec);
            && (a.Refused? ==> c1.delivered == c.delivered && verdict == if a.retryable then Retryable else Failed)
            && (a.Opened? && Read(c.(connected := false), a.chunks, codec).faulty ==> verdict.Failed?)
            && (verdict.Completed? ==> c1.terminal) && (verdict.Retryable? ==> !c1.terminal)
            && (a.Opened? && a.ending.Closed? ==> !verdict.Retryable?)
            && (verdict.UserClosed? ==> a.Opened? && a.ending.Closed? && !c1.terminal)
            && (a.Opened? && a.ending.Finished? && verdict.Retryable? ==> c1.connected)
            && (a.Opened? && a.ending.Broken? && !c1.terminal ==> verdict.Retryable? || verdict.Failed?)
  {
    var r := Read(c.(connected := false), if a.Opened? then a.chunks else [], codec);
    var blocks := Blocks(r.rest + if a.Opened? then a.flush else "").blocks;
    TerminalStays(r.client, blocks, 0, |blocks|, codec);
    assert blocks[..0] == [] && blocks[..|blocks|] == blocks;
    assert OnBlocks(r.client, [], codec) == Step(r.client, false);
    hide Read, OnBlocks, Blocks;
  }

  /** A response that ends before its confirmation is complete is an error, and a refusal for good as well. */
  lemma UnconfirmedFails(c: Client, a: Attempt, codec: Codec)
    requires !c.terminal
    requires if a.Refused? then !a.retryable
             else a.ending.Finished? && a.flush == "" && Blocks(Joined(a.chunks)).blocks == []
    ensures Connect(c, a, codec).1 == Failed && Connect(c, a, codec).0.delivered == c.delivered
  {
    hide Blocks, OnBlock;
    var c0 := c.(connected := false);
    if a.Opened? {
      var j := ReadHandlesPrefix(c0, a.chunks, codec);
      FlushAddsNothing(c0, a, codec, Read(c0, a.chunks, codec), j);
      assert Blocks(Joined(a.chunks)).blocks[..j] == [];
      hide Read;
    }
  }

  lemma SameTrack(c: Client, log: seq<RunEvent>, first: nat)
    requires OnTrack(c, log, first)
    ensures OnTrack(c.(connected := false), log, first)
  {
    ConnectedTracked(c, c.(connected := false));
    hide Tracked;
  }

  lemma WholeBlocks(a: Attempt, stream: string, items: seq<Item>, log: seq<RunEvent>, from: nat, codec: Codec)
    requires Faithful(codec) && SingleLine(stream) && IsLog(log) && SendsFrom(items, log, from)
    requires a.Opened? && Joined(a.chunks) == Frame(ResponseBlocks(stream, items, codec))
    ensures Blocks(Joined(a.chunks)).blocks == ResponseBlocks(stream, items, codec)
  {
    hide Framable, ResponseBlocks, Blocks, SendsFrom, IsLog;
    ResponseIsFramable(stream, items, log, from, codec);
    FrameRoundTrip(ResponseBlocks(stream, items, codec));
  }

  // A response that arrives whole is handled to its end, or to a terminal event before.
  lemma WholeIsHandled(c: Client, a: Attempt, stream: string, items: seq<Item>, log: seq<RunEvent>, from: nat,
                       first: nat, codec: Codec)
    requires Faithful(codec) && SingleLine(stream) && IsLog(log) && InLog(c, log, first)
    requires a.Opened? && Joined(a.chunks) == Frame(ResponseBlocks(stream, items, codec))
    requires from < |log| && EventsOf(items) == log[from..] && (c.last > 0 ==> from <= c.last)
    ensures var r := Read(c, a.chunks, codec);
            r.faulty || r.client.terminal || |log| <= r.client.last
  {
    assert SendsFrom(items, log, from) && EventsOf(items) != [];
    hide SendsFrom, IsLog, Blocks, OnBlock, Framable, Faithful, InLog, SingleLine, EventsOf, HelloBlock, ItemBlock;
    WholeBlocks(a, stream, items, log, from, codec);
    var j := ReadHandlesPrefix(c, a.chunks, codec);
    var blocks := ResponseBlocks(stream, items, codec);
    if j == |items| + 1 {
      assert blocks[..j] == blocks;
      var next := HandledItems(c, stream, items, j, log, from, first, codec);
    }
  }

  /** A connection that brings the whole rest of the log completes the run. */
  lemma WholeCompletes(c: Client, a: Attempt, from: nat, stream: string, log: seq<RunEvent>, first: nat, codec: Codec)
    returns (first': nat)
    requires Faithful(codec) && SingleLine(stream) && IsLog(log) && Concluded(log) && OnTrack(c, log, first)
    requires ArrivesWhole(a, c.last, from, stream, log, codec)
    ensures c.last > 0 ==> first' == first
    ensures var (c1, verdict) := Connect(c, a, codec);
            && verdict == Completed && OnTrack(c1, log, first') && c1.last == |log|
            && (c.last == 0 ==> first' == from)
  {
    var c0 := c.(connected := false);
    SameTrack(c, log, first);
    var items :| Arrives(a, stream, items, codec) && Joined(a.chunks) == Frame(ResponseBlocks(stream, items, codec))
      && from < |log| && EventsOf(items) == log[from..];
    assert SendsFrom(items, log, from);
    WholeIsHandled(c0, a, stream, items, log, from, first, codec);
    hide SendsFrom, Arrives, IsLog, Blocks, OnBlocks, Read, Faithful, SingleLine, Tracked, Concluded, ResponseBlocks,
      EventsOf;
    first' := ReadStaysInLog(c0, a, stream, items, log, from, first, codec);
    ReadTracked(c0, a.chunks, codec);
    TerminalIsEnd(Read(c0, a.chunks, codec).client, log, first');
  }

  // --- The run ---

  /**
    * When connections before the k-th are refused for now or break off anywhere, and the k-th brings the rest of the
    * log whole, the run completes, by then at the latest, and has delivered the log to its end.
    */
  lemma {:induction false} BrokenRunCompletes(
      c: Client, attempt: nat, k: nat, max: nat, server: (nat, nat) -> Attempt, from: (nat, nat) -> nat, stream: string,
      log: seq<RunEvent>, first: nat, codec: Codec)
    returns (first': nat, n: nat)
    requires attempt <= k <= max && Faithful(codec) && SingleLine(stream) && IsLog(log) && Concluded(log)
    requires OnTrack(c, log, first) && c.last < |log|
    requires forall i: nat, last: nat :: i < k && last <= |log| ==>
               BreaksOff(server(i, last), last, from(i, last), stream, log, codec)
    requires forall last: nat :: last <= |log| ==>
               ArrivesWhole(server(k, last), last, from(k, last), stream, log, codec)
    ensures c.last > 0 ==> first' == first
    ensures c.last == 0 ==> attempt <= n <= k && first' == from(n, 0)
    ensures var r := RunFrom(c, attempt, max, server, codec);
            && r.verdict.Completed? && r.connections <= k + 1
            && first' < |log| && r.client.delivered == log[first'..]
    decreases k - attempt
  {
    hide Connect, BreaksOff, ArrivesWhole, IsLog, Faithful, SingleLine, OnTrack, Concluded;
    n := attempt;
    if attempt == k {
      first' := WholeCompletes(c, server(k, c.last), from(k, c.last), stream, log, first, codec);
    } else {
      first' := BreakIsRetried(c, server(attempt, c.last), from(attempt, c.last), stream, log, first, codec);
    }
    var (c1, verdict) := Connect(c, server(attempt, c.last), codec);
    if verdict == Completed {
      AtTheEnd(c1, log, first');
    } else {
      TrackBounds(c1, log, first');
      var next, later := BrokenRunCompletes(c1, attempt + 1, k, max, server, from, stream, log, first', codec);
      if c1.last == 0 {
        first', n := next, later;
      }
    }
  }

  lemma TrackBounds(c: Client, log: seq<RunEvent>, first: nat)
    requires OnTrack(c, log, first)
    ensures c.last <= |log|
  {
    hide Tracked;
  }

  lemma AtTheEnd(c: Client, log: seq<RunEvent>, first: nat)
    requires OnTrack(c, log, first) && c.last == |log| && Concluded(log)
    ensures first < |log| && c.delivered == log[first..]
  {
  }

  /** The same for a new client: a run that was broken off any number of times delivers everything. */
  lemma BreaksLoseNothing(k: nat, max: nat, server: (nat, nat) -> Attempt, from: (nat, nat) -> nat, stream: string,
                          log: seq<RunEvent>, codec: Codec)
    requires k <= max && Faithful(codec) && SingleLine(stream) && IsLog(log) && Concluded(log)
    requires forall i: nat, last: nat :: i < k && last <= |log| ==>
               BreaksOff(server(i, last), last, from(i, last), stream, log, codec)
    requires forall last: nat :: last <= |log| ==>
               ArrivesWhole(server(k, last), last, from(k, last), stream, log, codec)
    ensures var r := RunFrom(NEW_CLIENT, 0, max, server, codec);
            && r.verdict.Completed? && r.connections <= k + 1
            && (exists n: nat :: n <= k && from(n, 0) < |log| && r.client.delivered == log[from(n, 0)..])
            && ((forall i: nat :: from(i, 0) == 0) ==> r.client.delivered == log)
  {
    hide BreaksOff, ArrivesWhole, RunFrom, IsLog, Faithful, SingleLine;
    assert OnTrack(NEW_CLIENT, log, 0);
    var first, n := BrokenRunCompletes(NEW_CLIENT, 0, k, max, server, from, stream, log, 0, codec);
  }
}

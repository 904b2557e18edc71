/** Every event is delivered exactly once. */
module ExactlyOnce {
  import opened Wrappers
  import opened Framing
  import opened EventBlocks
  import opened Delivery

  // --- The writer's responses ---

  datatype Item = Beat | Sent(event: RunEvent)

  function ItemBlock(item: Item, codec: Codec): string {
    if item.Beat? then HEARTBEAT else EventBlock(item.event, codec)
  }

  function ItemBlocks(items: seq<Item>, codec: Codec): (blocks: seq<string>)
    ensures |blocks| == |items| && forall i :: 0 <= i < |items| ==> blocks[i] == ItemBlock(items[i], codec)
  {
    seq(|items|, i requires 0 <= i < |items| => ItemBlock(items[i], codec))
  }

  function ResponseBlocks(stream: string, items: seq<Item>, codec: Codec): seq<string> {
    [HelloBlock(stream)] + ItemBlocks(items, codec)
  }

  function EventsOf(items: seq<Item>): seq<RunEvent> {
    if items == [] then []
    else
      var before := EventsOf(items[..|items| - 1]);
      if items[|items| - 1].Beat? then before else before + [items[|items| - 1].event]
  }

  // Events are numbered from one, in order.
  predicate IsLog(log: seq<RunEvent>) {
    forall i :: 0 <= i < |log| ==> log[i].id == i + 1 && ValidEvent(log[i])
  }

  // A response: a confirmation, then heartbeats and a stretch of the log from some position on.
  predicate SendsFrom(items: seq<Item>, log: seq<RunEvent>, from: nat) {
    from <= |log| && EventsOf(items) <= log[from..]
  }

  // What arrives may break off anywhere and be cut anywhere.
  ghost predicate Arrives(a: Attempt, stream: string, items: seq<Item>, codec: Codec) {
    a.Opened? && a.flush == "" && Joined(a.chunks) <= Frame(ResponseBlocks(stream, items, codec))
  }

  /** A response that starts at a position of the log: for a client with a last event, at or before the next one. */
  ghost predicate Answers(a: Attempt, last: nat, from: nat, stream: string, log: seq<RunEvent>, codec: Codec) {
    a.Refused?
    || ((last > 0 ==> from <= last) && exists items :: Arrives(a, stream, items, codec) && SendsFrom(items, log, from))
  }

  // --- The client's side ---

  /** The client has delivered exactly the stretch of the log that ends with its last event. */
  predicate InLog(c: Client, log: seq<RunEvent>, first: nat) {
    if c.last == 0 then c.delivered == []
    else first < c.last <= |log| && c.delivered == log[first..c.last]
  }

  lemma EventInLog(c: Client, e: RunEvent, log: seq<RunEvent>, first: nat)
    requires IsLog(log) && c.last > 0 && InLog(c, log, first) && e in log && e.id <= c.last + 1
    ensures var s := OnEvent(c, e);
            !s.faulty && InLog(s.client, log, first) && s.client.last == if e.id <= c.last then c.last else e.id
  {
  }

  lemma FirstInLog(c: Client, e: RunEvent, log: seq<RunEvent>)
    requires IsLog(log) && c.last == 0 && c.delivered == [] && e in log
    ensures var s := OnEvent(c, e);
            !s.faulty && s.client.last == e.id && InLog(s.client, log, e.id - 1)
  {
  }

  lemma PrefixEvents(items: seq<Item>, j: nat)
    requires j <= |items|
    ensures EventsOf(items[..j]) <= EventsOf(items)
    decreases |items|
  {
    if j < |items| {
      PrefixEvents(items[..|items| - 1], j);
      assert items[..|items| - 1][..j] == items[..j];
    } else {
      assert items[..j] == items;
    }
  }

  lemma ItemOutcome(item: Item, log: seq<RunEvent>, codec: Codec)
    requires Faithful(codec) && (item.Sent? ==> ValidEvent(item.event))
    ensures ParseBlock(ItemBlock(item, codec), codec)
            == Outcome(false, if item.Beat? then None else Some(item.event), false)
  {
    hide ParseBlock, EventBlock, HEARTBEAT;
    if item.Beat? {
      HeartbeatRoundTrip(codec);
    } else {
      EventRoundTrip(item.event, codec);
    }
  }

  // Where the client stands after some events of a response.
  predicate Follows(c0: Client, c: Client, log: seq<RunEvent>, from: nat, sent: nat, first: nat) {
    && InLog(c, log, first) && c0.last <= c.last && c.connected
    && (c0.last > 0 ==> from <= c0.last) && (c0.last > 0 && sent == 0 ==> c.last == c0.last)
    && (sent > 0 ==> c.last == if from + sent <= c0.last then c0.last else from + sent)
    && (c0.last == 0 && sent == 0 ==> c.last == 0) && (c0.last == 0 && sent > 0 ==> first == from)
  }

  /** Handling the j items of a response keeps the client in the log. */
  lemma {:induction false} ItemsFollow(c0: Client, c1: Client, items: seq<Item>, log: seq<RunEvent>, from: nat,
                                       first: nat, codec: Codec)
    returns (first': nat)
    requires Faithful(codec) && IsLog(log) && SendsFrom(items, log, from)
    requires Follows(c0, c1, log, from, 0, first)
    ensures c0.last > 0 ==> first' == first
    ensures var s := OnBlocks(c1, ItemBlocks(items, codec), codec);
            !s.faulty && Follows(c0, s.client, log, from, |EventsOf(items)|, first')
    decreases |items|
  {
    hide OnBlock, ItemBlock, InLog, IsLog;
    if items == [] {
      first' := first;
    } else {
      var front, item := items[..|items| - 1], items[|items| - 1];
      PrefixEvents(items, |items| - 1);
      first' := ItemsFollow(c0, c1, front, log, from, first, codec);
      assert ItemBlocks(items, codec)[..|items| - 1] == ItemBlocks(front, codec);
      var before := OnBlocks(c1, ItemBlocks(front, codec), codec).client;
      first' := ItemFollows(c0, before, item, log, from, |EventsOf(front)|, first', codec);
    }
  }

  lemma ItemFollows(c0: Client, c: Client, item: Item, log: seq<RunEvent>, from: nat, sent: nat, first: nat,
                    codec: Codec)
    returns (first': nat)
    requires Faithful(codec) && IsLog(log) && Follows(c0, c, log, from, sent, first)
    requires item.Sent? ==> from + sent < |log| && item.event == log[from + sent]
    ensures c0.last > 0 ==> first' == first
    ensures var s := OnBlock(c, ItemBlock(item, codec), codec);
            !s.faulty && Follows(c0, s.client, log, from, sent + if item.Sent? then 1 else 0, first')
  {
    assert item.Sent? ==> ValidEvent(item.event);
    ItemOutcome(item, log, codec);
    hide ParseBlock, ItemBlock;
    first' := first;
    if item.Sent? {
      if c.last == 0 {
        first' := item.event.id - 1;
        FirstInLog(c, item.event, log);
      } else {
        EventInLog(c, item.event, log, first);
      }
    }
  }

  // --- What arrives of a response is a prefix of its blocks ---

  lemma {:induction false} ResponseIsFramable(stream: string, items: seq<Item>, log: seq<RunEvent>, from: nat,
                                              codec: Codec)
    requires Faithful(codec) && SingleLine(stream) && IsLog(log) && SendsFrom(items, log, from)
    ensures forall b :: b in ResponseBlocks(stream, items, codec) ==> Framable(b)
  {
    HelloIsFramable(stream);
    forall i | 0 <= i < |items|
      ensures Framable(ItemBlocks(items, codec)[i])
    {
      hide Framable, EventBlock, HEARTBEAT;
      if items[i].Sent? {
        SentIsLogged(items, log, from, i);
        EventIsFramable(items[i].event, codec);
      }
    }
  }

  lemma {:induction false} SentIsLogged(items: seq<Item>, log: seq<RunEvent>, from: nat, i: nat)
    requires IsLog(log) && SendsFrom(items, log, from) && i < |items| && items[i].Sent?
    ensures ValidEvent(items[i].event)
  {
    PrefixEvents(items, i + 1);
    assert items[..i + 1][..i] == items[..i];
    var events := EventsOf(items[..i + 1]);
    assert events[|events| - 1] == items[i].event;
    assert events <= log[from..];
    assert log[from + |events| - 1] == items[i].event;
  }

  lemma ArrivedBlocks(a: Attempt, stream: string, items: seq<Item>, codec: Codec)
    requires Arrives(a, stream, items, codec) && forall b :: b in ResponseBlocks(stream, items, codec) ==> Framable(b)
    ensures Blocks(Joined(a.chunks)).blocks <= ResponseBlocks(stream, items, codec)
  {
    hide Framable, ResponseBlocks, Blocks;
    var text := Joined(a.chunks);
    var all := Frame(ResponseBlocks(stream, items, codec));
    FrameRoundTrip(ResponseBlocks(stream, items, codec));
    assert all == text + all[|text|..];
    BlocksResume(text, all[|text|..]);
  }

  lemma HelloStep(c: Client, stream: string, codec: Codec)
    requires SingleLine(stream)
    ensures OnBlocks(c, [HelloBlock(stream)], codec) == Step(c.(connected := true), false)
  {
    HelloRoundTrip(stream, codec);
    hide ParseBlock, HelloBlock;
    assert [HelloBlock(stream)][..0] == [];
  }

  lemma HandledItems(c0: Client, stream: string, items: seq<Item>, j: nat, log: seq<RunEvent>, from: nat, first: nat,
                     codec: Codec)
    returns (first': nat)
    requires Faithful(codec) && SingleLine(stream) && IsLog(log) && SendsFrom(items, log, from)
    requires InLog(c0, log, first) && (c0.last > 0 ==> from <= c0.last)
    requires 0 < j <= |ResponseBlocks(stream, items, codec)|
    ensures c0.last > 0 ==> first' == first
    ensures var s := OnBlocks(c0, ResponseBlocks(stream, items, codec)[..j], codec);
            && !s.faulty && InLog(s.client, log, first') && c0.last <= s.client.last && s.client.connected
            && (c0.last == 0 < s.client.last ==> first' == from)
            && (j == |items| + 1 && EventsOf(items) != [] ==> from + |EventsOf(items)| <= s.client.last)
  {
    assert InLog(c0.(connected := true), log, first);
    hide OnBlock, OnBlocks, HelloBlock, ItemBlock, ItemBlocks, ResponseBlocks, EventsOf, IsLog, InLog, Faithful,
      SingleLine;
    FrontBlocks(stream, items, j, codec);
    var front := items[..j - 1];
    PrefixEvents(items, j - 1);
    HelloStep(c0, stream, codec);
    first' := ItemsFollow(c0, c0.(connected := true), front, log, from, first, codec);
    OnBlocksResume(c0, [HelloBlock(stream)], ItemBlocks(front, codec), codec);
    assert j == |items| + 1 ==> front == items;
  }

  lemma FrontBlocks(stream: string, items: seq<Item>, j: nat, codec: Codec)
    requires 0 < j <= |ResponseBlocks(stream, items, codec)|
    ensures j <= |items| + 1
    ensures ResponseBlocks(stream, items, codec)[..j] == [HelloBlock(stream)] + ItemBlocks(items[..j - 1], codec)
  {
    hide HelloBlock, ItemBlock;
  }

  lemma ReadStaysInLog(
      c: Client, a: Attempt, stream: string, items: seq<Item>, log: seq<RunEvent>, from: nat, first: nat, codec: Codec)
    returns (first': nat)
    requires Faithful(codec) && SingleLine(stream) && IsLog(log) && InLog(c, log, first)
    requires Arrives(a, stream, items, codec) && SendsFrom(items, log, from) && (c.last > 0 ==> from <= c.last)
    ensures c.last > 0 ==> first' == first
    ensures var r := Read(c, a.chunks, codec);
            && !r.faulty && InLog(r.client, log, first') && c.last <= r.client.last
            && (c.last == 0 < r.client.last ==> first' == from)
            && (Blocks(Joined(a.chunks)).blocks != [] && !r.client.terminal ==> r.client.connected)
            && OnBlocks(r.client, Blocks(r.rest + a.flush).blocks, codec) == Step(r.client, false)
  {
    first' := first;
    hide SendsFrom, IsLog, Blocks, OnBlock, ResponseBlocks, Framable, Faithful, InLog, SingleLine;
    ResponseIsFramable(stream, items, log, from, codec);
    ArrivedBlocks(a, stream, items, codec);
    var j := ReadHandlesPrefix(c, a.chunks, codec);
    var r := Read(c, a.chunks, codec);
    var blocks := ResponseBlocks(stream, items, codec);
    assert Blocks(Joined(a.chunks)).blocks[..j] == blocks[..j];
    if j > 0 {
      first' := HandledItems(c, stream, items, j, log, from, first, codec);
    }
    FlushAddsNothing(c, a, codec, r, j);
  }

  /**
    * One connection keeps the client in the log; it fails only when the confirmation itself did not arrive. The first
    * event of all is the one that the response starts with.
    */
  lemma ConnectStaysInLog(c: Client, a: Attempt, from: nat, stream: string, log: seq<RunEvent>, first: nat,
                          codec: Codec)
    returns (first': nat)
    requires Faithful(codec) && SingleLine(stream) && IsLog(log) && InLog(c, log, first)
             && Answers(a, c.last, from, stream, log, codec)
    ensures c.last > 0 ==> first' == first
    ensures var (c1, verdict) := Connect(c, a, codec);
            && InLog(c1, log, first') && c.last <= c1.last && (c.last == 0 < c1.last ==> first' == from)
            && (verdict.Failed? ==> a.Refused? || !c1.connected)
  {
    first' := first;
    hide SendsFrom, Arrives, IsLog, Blocks, OnBlocks, Read, Faithful, SingleLine;
    if a.Opened? {
      var items :| Arrives(a, stream, items, codec) && SendsFrom(items, log, from);
      var c0 := c.(connected := false);
      first' := ReadStaysInLog(c0, a, stream, items, log, from, first, codec);
    }
  }

  lemma {:induction false} RestHasNothing(s: string)
    ensures Blocks(Blocks(s).rest) == Framed([], Blocks(s).rest)
    decreases |s|
  {
    BlocksHaveNone(s);
  }

  // A text without further bytes completes no block at its end.
  lemma FlushAddsNothing(c: Client, a: Attempt, codec: Codec, r: Reading, j: nat)
    requires a.Opened? && a.flush == "" && r == Read(c, a.chunks, codec) && Handled(c, Joined(a.chunks), codec, r, j)
    ensures r.faulty || OnBlocks(r.client, Blocks(r.rest + a.flush).blocks, codec) == Step(r.client, false)
  {
    assert r.rest + "" == r.rest;
    if !r.faulty {
      ReadRestIsOpen(c, a.chunks, codec);
    }
  }

  lemma {:induction false} ReadRestIsOpen(c: Client, chunks: seq<string>, codec: Codec)
    ensures Blocks(Read(c, chunks, codec).rest).blocks == []
    decreases |chunks|
  {
    hide Blocks, OnBlocks;
    if chunks == [] {
      NothingFramed();
    } else {
      var before := Read(c, chunks[..|chunks| - 1], codec);
      ReadRestIsOpen(c, chunks[..|chunks| - 1], codec);
      RestHasNothing(before.rest + chunks[|chunks| - 1]);
    }
  }

  /** Where the writer starts to answer, for every connection and every last event that is in the log. */
  ghost predicate AnswersAll(server: (nat, nat) -> Attempt, from: (nat, nat) -> nat, stream: string,
                             log: seq<RunEvent>, codec: Codec) {
    forall n: nat, last: nat :: last <= |log| ==> Answers(server(n, last), last, from(n, last), stream, log, codec)
  }

  /**
    * Over any number of connections to a writer that resends from at or before the last delivered event, with responses
    * cut, repeated and broken off anywhere, what the client delivers is exactly one stretch of the log, in order. It
    * begins where the writer began to answer the connection that brought the first event.
    */
  lemma {:induction false} DeliveredExactlyOnce(
      c: Client, attempt: nat, max: nat, server: (nat, nat) -> Attempt, from: (nat, nat) -> nat, stream: string,
      log: seq<RunEvent>, first: nat, codec: Codec)
    returns (first': nat, n: nat)
    requires attempt <= max && Faithful(codec) && SingleLine(stream) && IsLog(log) && InLog(c, log, first)
    requires AnswersAll(server, from, stream, log, codec)
    ensures c.last > 0 ==> first' == first
    ensures var r := RunFrom(c, attempt, max, server, codec);
            && InLog(r.client, log, first') && c.last <= r.client.last
            && (c.last == 0 < r.client.last ==> attempt <= n <= max && first' == from(n, 0))
    decreases max - attempt
  {
    hide Answers, Connect, IsLog, Faithful, SingleLine;
    assert c.last <= |log|;
    n := attempt;
    first' := ConnectStaysInLog(c, server(attempt, c.last), from(attempt, c.last), stream, log, first, codec);
    hide InLog;
    var (c1, verdict) := Connect(c, server(attempt, c.last), codec);
    if verdict.Retryable? && attempt < max {
      var next, later := DeliveredExactlyOnce(c1, attempt + 1, max, server, from, stream, log, first', codec);
      if c1.last == 0 {
        first', n := next, later;
      }
    }
  }

  lemma {:induction false} CompletedIsTerminal(c: Client, attempt: nat, max: nat, server: (nat, nat) -> Attempt,
                                               codec: Codec)
    requires attempt <= max
    ensures RunFrom(c, attempt, max, server, codec).verdict.Completed? ==>
            RunFrom(c, attempt, max, server, codec).client.terminal
    decreases max - attempt
  {
    hide Read, OnBlocks, Blocks;
    var (c1, verdict) := Connect(c, server(attempt, c.last), codec);
    if verdict.Retryable? && attempt < max {
      CompletedIsTerminal(c1, attempt + 1, max, server, codec);
    }
  }

  // Only the last event of the log is terminal.
  predicate EndsOnce(log: seq<RunEvent>) {
    forall i :: 0 <= i < |log| - 1 ==> !IsTerminal(log[i].kind)
  }

  /**
    * A run that completes has delivered the log to its end; no event is missing, repeated or out of order. When the
    * writer starts every answer to a client without events at the beginning, that is the whole log.
    */
  lemma CompletedRunDeliversAll(max: nat, server: (nat, nat) -> Attempt, from: (nat, nat) -> nat, stream: string,
                                log: seq<RunEvent>, codec: Codec) returns (first: nat, n: nat)
    requires Faithful(codec) && SingleLine(stream) && IsLog(log) && AnswersAll(server, from, stream, log, codec)
    ensures var r := RunFrom(NEW_CLIENT, 0, max, server, codec);
            && InLog(r.client, log, first)
            && (r.client.last > 0 ==> n <= max && first == from(n, 0))
            && (r.verdict.Completed? && EndsOnce(log) ==> first < |log| && r.client.delivered == log[first..])
            && ((forall k :: from(k, 0) == 0) ==>
                  && first == 0 && r.client.delivered == log[..r.client.last]
                  && (r.verdict.Completed? && EndsOnce(log) ==> r.client.delivered == log))
  {
    hide Answers, AnswersAll, Faithful, SingleLine, RunFrom;
    first, n := DeliveredExactlyOnce(NEW_CLIENT, 0, max, server, from, stream, log, 0, codec);
    DeliveryIsContiguous(NEW_CLIENT, 0, max, server, codec);
    CompletedIsTerminal(NEW_CLIENT, 0, max, server, codec);
    var r := RunFrom(NEW_CLIENT, 0, max, server, codec);
    if r.client.last == 0 {
      first := 0;
    }
    if r.verdict.Completed? && EndsOnce(log) {
      var i :| 0 <= i < |r.client.delivered| && IsTerminal(r.client.delivered[i].kind);
      assert r.client.delivered[i] == log[first + i];
    }
  }

  // --- The writer's bounded history ---

  const HISTORY_LIMIT: nat := 256

  /** Where the history starts once some events were published: only the newest are kept. */
  function Oldest(published: nat): nat {
    if published <= HISTORY_LIMIT then 0 else published - HISTORY_LIMIT
  }

  /**
    * The service answers a client without a last event with its whole kept history, refuses one whose next event it no
    * longer keeps, and sends every other client what follows its last event.
    */
  ghost predicate Serves(a: Attempt, last: nat, published: nat, stream: string, log: seq<RunEvent>, codec: Codec) {
    && published <= |log| && (0 < last < Oldest(published) ==> a.Refused?)
    && Answers(a, last, ServesFrom(last, published), stream, log, codec)
  }

  function ServesFrom(last: nat, published: nat): nat {
    if last == 0 then Oldest(published) else if last <= published then last else published
  }

  /**
    * Connection k finds a number of events published. The delivered stretch begins with the oldest event that was kept
    * when the first connection with events was made: a run of at most 256 events is always delivered whole.
    */
  lemma ServedRunDeliversAll(max: nat, server: (nat, nat) -> Attempt, published: nat -> nat, stream: string,
                             log: seq<RunEvent>, codec: Codec) returns (first: nat, n: nat)
    requires Faithful(codec) && SingleLine(stream) && IsLog(log)
    requires forall k: nat, last: nat :: last <= |log| ==>
               Serves(server(k, last), last, published(k), stream, log, codec)
    ensures var r := RunFrom(NEW_CLIENT, 0, max, server, codec);
            && InLog(r.client, log, first)
            && (r.client.last > 0 ==> n <= max && first == Oldest(published(n)))
            && (r.verdict.Completed? && EndsOnce(log) ==> first < |log| && r.client.delivered == log[first..])
            && (|log| <= HISTORY_LIMIT ==> first == 0)
  {
    hide Answers, Faithful, SingleLine, RunFrom, IsLog, InLog;
    var from := (k: nat, last: nat) => ServesFrom(last, published(k));
    first, n := CompletedRunDeliversAll(max, server, from, stream, log, codec);
    if |log| <= HISTORY_LIMIT {
      forall k: nat
        ensures from(k, 0) == 0
      {
        assert Serves(server(k, 0), 0, published(k), stream, log, codec);
      }
    }
  }
}

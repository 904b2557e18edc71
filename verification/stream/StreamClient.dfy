/** The client object: fields that change event by event, one parser per connection, one reconnect loop. */
module StreamClient {
  import opened Framing
  import opened EventBlocks
  import opened Delivery

  class RunEventStream {
    const max: nat
    const codec: Codec
    var lastEventId: nat
    var reconnectAttempt: nat
    var connected: bool
    var terminal: bool
    var closed: bool
    var delivered: seq<RunEvent>

    function View(): Client
      reads this
    {
      Client(lastEventId, terminal, connected, delivered)
    }

    constructor (max: nat, codec: Codec)
      ensures View() == NEW_CLIENT && reconnectAttempt == 0 && !closed && this.max == max && this.codec == codec
    {
      this.max, this.codec := max, codec;
      lastEventId, reconnectAttempt, connected, terminal, closed, delivered := 0, 0, false, false, false, [];
    }

    // The gate on event numbers; a gap is a fault.
    method OnEvent(event: RunEvent) returns (faulty: bool)
      modifies this
      ensures Step(View(), faulty) == Delivery.OnEvent(old(View()), event)
      ensures reconnectAttempt == old(reconnectAttempt) && closed == old(closed)
    {
      if event.id <= lastEventId {
        return false;
      }
      if lastEventId > 0 && event.id != lastEventId + 1 {
        return true;
      }
      lastEventId := event.id;
      delivered := delivered + [event];
      if IsTerminal(event.kind) {
        terminal := true;
      }
      return false;
    }

    method OnBlock(block: string) returns (faulty: bool)
      modifies this
      ensures Step(View(), faulty) == Delivery.OnBlock(old(View()), block, codec)
      ensures reconnectAttempt == old(reconnectAttempt) && closed == old(closed)
    {
      hide ParseBlock;
      var outcome := ParseBlock(block, codec);
      if outcome.connected && !connected {
        connected := true;
      }
      if outcome.faulty {
        return true;
      }
      if outcome.event.Some? {
        faulty := OnEvent(outcome.event.value);
      } else {
        faulty := false;
      }
    }

    // The completed blocks of a push, up to the first fault.
    method OnBlocks(blocks: seq<string>) returns (faulty: bool)
      modifies this
      ensures Step(View(), faulty) == Delivery.OnBlocks(old(View()), blocks, codec)
      ensures reconnectAttempt == old(reconnectAttempt) && closed == old(closed)
    {
      hide Delivery.OnBlock;
      faulty := false;
      for i := 0 to |blocks|
        invariant !faulty && Step(View(), faulty) == Delivery.OnBlocks(old(View()), blocks[..i], codec)
        invariant reconnectAttempt == old(reconnectAttempt) && closed == old(closed)
      {
        assert blocks[..i + 1][..i] == blocks[..i];
        faulty := OnBlock(blocks[i]);
        if faulty {
          FaultStops(old(View()), blocks, i + 1);
          return;
        }
      }
      assert blocks[..|blocks|] == blocks;
    }

    lemma {:induction false} FaultStops(c: Client, blocks: seq<string>, i: nat)
      requires i <= |blocks| && Delivery.OnBlocks(c, blocks[..i], codec).faulty
      ensures Delivery.OnBlocks(c, blocks, codec) == Delivery.OnBlocks(c, blocks[..i], codec)
    {
      assert blocks == blocks[..i] + blocks[i..];
      OnBlocksResume(c, blocks[..i], blocks[i..], codec);
    }

    /** One connection, read chunk by chunk until it ends, faults or a terminal event arrives. */
    method ConnectOnce(a: Attempt) returns (verdict: Verdict)
      modifies this
      ensures View() == Connect(old(View()), a, codec).0 && verdict == Connect(old(View()), a, codec).1
      ensures reconnectAttempt == old(reconnectAttempt) && closed == old(closed)
    {
      hide Delivery.OnBlocks, Blocks;
      connected := false;
      ghost var c := View();
      if a.Refused? {
        return if a.retryable then Retryable else Failed;
      }
      var parser := new Parser();
      var i := 0;
      while i < |a.chunks| && !terminal
        invariant i <= |a.chunks| && fresh(parser)
        invariant Read(c, a.chunks[..i], codec) == Reading(View(), parser.buffer, false)
        invariant reconnectAttempt == old(reconnectAttempt) && closed == old(closed)
      {
        assert a.chunks[..i + 1][..i] == a.chunks[..i];
        var blocks := parser.Push(a.chunks[i]);
        var faulty := OnBlocks(blocks);
        i := i + 1;
        if faulty {
          ReadStops(c, a.chunks, i);
          return Failed;
        }
      }
      ReadStops(c, a.chunks, i);
      if !terminal && a.ending.Broken? {
        return Retryable;
      }
      if !terminal && a.ending.Closed? {
        return UserClosed;
      }
      var blocks := parser.Push(a.flush);
      var faulty := OnBlocks(blocks);
      if faulty || (!connected && !terminal) {
        return Failed;
      }
      return if terminal then Completed else Retryable;
    }

    // Reading stops at a fault, at a terminal event or at the last chunk.
    lemma {:induction false} ReadStops(c: Client, chunks: seq<string>, i: nat)
      requires i <= |chunks|
      requires i == |chunks| || Read(c, chunks[..i], codec).faulty || Read(c, chunks[..i], codec).client.terminal
      ensures Read(c, chunks, codec) == Read(c, chunks[..i], codec)
      decreases |chunks|
    {
      if i < |chunks| {
        var front := chunks[..|chunks| - 1];
        assert front[..i] == chunks[..i];
        ReadStops(c, front, i);
      } else {
        assert chunks[..i] == chunks;
      }
    }

    /** Connects until the run is complete, the user closes, an error is final or the attempts are used up. */
    method Run(server: (nat, nat) -> Attempt) returns (connections: nat, verdict: Verdict)
      requires reconnectAttempt == 0 && !closed && !terminal
      modifies this
      ensures RunResult(View(), connections, verdict) == RunFrom(old(View()), 0, max, server, codec)
      ensures connections <= max + 1 && reconnectAttempt <= max
              && (closed <==> verdict.Completed? || verdict.UserClosed?)
    {
      hide Connect;
      connections := 0;
      while true
        invariant connections == reconnectAttempt <= max && !closed
        invariant RunFrom(View(), reconnectAttempt, max, server, codec) == RunFrom(old(View()), 0, max, server, codec)
        decreases max - reconnectAttempt
      {
        verdict := ConnectOnce(server(reconnectAttempt, lastEventId));
        connections := connections + 1;
        if !verdict.Retryable? {
          closed := verdict.Completed? || verdict.UserClosed?;
          return;
        }
        if reconnectAttempt >= max {
          verdict := Failed;
          return;
        }
        reconnectAttempt := reconnectAttempt + 1;
      }
    }
  }
}

/**
 A whole transfer: one Sender and one Receiver joined by a network that
 neither loses, reorders nor delays a datagram past the sender's one-second
 read, with every iteration taken in the same second.

 A datagram the receiver sends back waits in the sender's socket (`inbox`)
 until a read takes it. When one is already waiting as an iteration starts,
 the read returns it before `send_packet` runs; otherwise `send_packet` sends
 first and the read returns the receiver's reply, if there is one.

 The transfer starts from `Begin`: the receiver has already handled the
 INITRQ and its ACK 0 waits before the first iteration. (Under gevent the
 first iteration may also start before that reply arrives and resend the
 INITRQ; that schedule is not modelled here.)

 Because the receiver does not acknowledge a block it has just accepted, each
 DATA block but the last is sent twice: once to be written, then again to be
 acknowledged.
 */
module Transfer {
  import opened Wrappers
  import opened Errors
  import opened Constants
  import opened Helpers
  import opened Packets
  import opened PacketFactory
  import opened FileSource
  import opened Sender
  import opened Receiver

  /** The sender's address as the receiver sees it. */
  const Peer: Address := Address("sender", 1)

  datatype System = System(
    sender: SenderState,
    table: Table,
    /** Datagrams from the receiver not yet read by the sender, oldest first. */
    inbox: seq<Bytes>,
    /** The chunks the receiver has written to the sender's file, in order. */
    sink: seq<Bytes>)

  /** The receiver handles what the sender sent, if anything. */
  function Deliver(sys: System, sent: Option<Bytes>, now: int): System
  {
    match sent
    case None => sys
    case Some(p) =>
      var r := Handle(sys.table, p, Peer, now);
      sys.(table := r.table, inbox := sys.inbox + r.sent, sink := sys.sink + r.written)
  }

  /** An iteration that finds the receiver's datagram `inbox[0]` already waiting. */
  function WaitingStep(sys: System, now: int): System
    requires |sys.inbox| > 0
  {
    var consumed := CheckTime(sys.sender, now).0 && !sys.sender.transferComplete;
    var r := StepWaiting(sys.sender, now, sys.inbox[0]);
    Deliver(sys.(sender := r.state, inbox := if consumed then sys.inbox[1..] else sys.inbox), r.sent, now)
  }

  /** An iteration that finds nothing waiting: the read returns the receiver's reply to what was sent, if any. */
  function ListeningStep(sys: System, now: int): System
  {
    var (_, sent, listening) := SendPhase(sys.sender, now);
    var d := Deliver(sys, sent, now);
    var incoming := if |d.inbox| > 0 then Datagram(d.inbox[0]) else Timeout;
    d.(sender := Step(sys.sender, now, incoming).state,
       inbox := if listening && |d.inbox| > 0 then d.inbox[1..] else d.inbox)
  }

  /** One iteration of the sender's loop at time `now`, with the receiver answering within it. */
  function SystemStep(sys: System, now: int): System
  {
    if |sys.inbox| > 0 then WaitingStep(sys, now) else ListeningStep(sys, now)
  }

  /** Sending the INITRQ to a receiver with no sessions. */
  function Begin(name: string, contents: Bytes, now: int): Result<System, Error>
  {
    var started :- Start(name, contents, now);
    var r := Handle(map[], started.1, Peer, now);
    Success(System(started.0, r.table, r.sent, r.written))
  }

  /** The upload loop: iterate while the sender runs, for at most `fuel` iterations. */
  function Run(sys: System, now: int, fuel: nat): System
    decreases fuel, 2
  {
    if fuel == 0 || !Running(sys.sender) then sys else Iterate(sys, now, fuel)
  }

  /** One iteration, as a datagram is or is not waiting, then back to the loop test. */
  function Iterate(sys: System, now: int, fuel: nat): System
    requires fuel > 0
    decreases fuel, 1
  {
    if |sys.inbox| > 0 then IterateWaiting(sys, now, fuel) else IterateListening(sys, now, fuel)
  }

  /** The iteration that reads the waiting datagram, then the loop test again. */
  function IterateWaiting(sys: System, now: int, fuel: nat): System
    requires fuel > 0 && |sys.inbox| > 0
    decreases fuel, 0
  {
    Run(WaitingStep(sys, now), now, fuel - 1)
  }

  /** The iteration that sends first and then listens, then the loop test again. */
  function IterateListening(sys: System, now: int, fuel: nat): System
    requires fuel > 0
    decreases fuel, 0
  {
    Run(ListeningStep(sys, now), now, fuel - 1)
  }

  // ---------------------------------------------------------------------------
  // The states a lossless transfer passes through
  // ---------------------------------------------------------------------------

  /** Every block number of the file fits in 16 bits. */
  predicate Sendable(contents: Bytes)
  {
    NumBlocks(contents) <= 0xFFFF
  }

  /** The DATA packet of the k-th chunk. */
  function BlockPacket(contents: Bytes, k: nat): Bytes
    requires Sendable(contents) && 1 <= k <= NumBlocks(contents)
  {
    DataWire(k, Chunk(contents, k))
  }

  /** The terminating block is remembered once the short last block is built. */
  function Term(contents: Bytes, k: nat): Option<nat>
  {
    if k == NumBlocks(contents) then Some(k) else None
  }

  /** After the handshake: the receiver's ACK of block 0 waits in the sender's socket. */
  function Opened(name: string, contents: Bytes, now: int): System
    requires IsAscii(name)
  {
    System(SenderState(false, false, InitrqWire(name), 0, None, now, [], Open(contents)),
           map[Peer := Session(false, 0, Some(name), now)], [AckWire(0)], [])
  }

  /** Block k has just been written and is not yet acknowledged; with the last block, both sides are complete. */
  function Written(name: string, contents: Bytes, now: int, k: nat): System
    requires Sendable(contents) && 1 <= k <= NumBlocks(contents)
  {
    var last := k == NumBlocks(contents);
    System(SenderState(last, false, BlockPacket(contents, k), k, Term(contents, k), now, [], SourceAfter(contents, k)),
           map[Peer := Session(last, k, Some(name), now)], [], Chunks(contents, k))
  }

  /** Block k - 1 has been acknowledged and block k is queued. */
  function Queued(name: string, contents: Bytes, now: int, k: nat): System
    requires Sendable(contents) && 2 <= k <= NumBlocks(contents)
  {
    System(SenderState(false, false, BlockPacket(contents, k), k, Term(contents, k), now,
                       [BlockPacket(contents, k)], SourceAfter(contents, k)),
           map[Peer := Session(false, k - 1, Some(name), now)], [], Chunks(contents, k - 1))
  }

  // ---------------------------------------------------------------------------
  // Steps
  // ---------------------------------------------------------------------------

  lemma SingleSessionCleanUp(sess: Session, now: int)
    requires !Expired(sess, now)
    ensures CleanUp(map[Peer := sess], now, false) == map[Peer := sess]
  {
  }

  /** The session table after a DATA packet from the only session. */
  lemma DataToSession(sess: Session, k: nat, chunk: Bytes, now: int)
    requires !Expired(sess, now) && k < 0x1_0000 && |chunk| <= DataSize
    requires k == sess.blockNumber + 1 || k == sess.blockNumber
    ensures var r := Handle(map[Peer := sess], DataWire(k, chunk), Peer, now);
      var complete := |chunk| < DataSize;
      && (k == sess.blockNumber + 1 ==>
            r == Reply(map[Peer := sess.(blockNumber := k, lastActive := now, transferComplete := complete)], [], [chunk]))
      && (k == sess.blockNumber ==>
            r == Reply(map[Peer := sess.(lastActive := now, transferComplete := complete)], [AckWire(k)], []))
  {
    var t := map[Peer := sess];
    var p := DataWire(k, chunk);
    SingleSessionCleanUp(sess, now);
    assert Prefix(p) == [0, 2];
    BuildDataLayout(k, chunk);
    DataRoundTrip(k, chunk);
    assert ParseData(p) == (k, chunk);
    DataHandling(t, p, Peer, now);
    var r := Handle(t, p, Peer, now);
    assert forall a :: a in r.table <==> a == Peer;
  }

  /** A matching ACK makes the sender read and queue the next block. */
  lemma AckAccepted(s: SenderState, now: int)
    requires s.blockNo < 0x1_0000
    ensures ReceiveAck(s, now, Datagram(AckWire(s.blockNo)))
         == EnqueueNextBlock(s.(lastActive := now, blockNo := s.blockNo + 1))
  {
    AckWireReceived(s.blockNo);
  }

  /** The sender queues block k, read from the reader left after block k - 1. */
  lemma QueueBlock(contents: Bytes, s: SenderState, k: nat)
    requires Sendable(contents) && 1 <= k <= NumBlocks(contents)
    requires s.blockNo == k && s.queue == [] && s.terminatingBlockNo == None && s.source == SourceAfter(contents, k - 1)
    ensures EnqueueNextBlock(s)
         == s.(lastPacket := BlockPacket(contents, k), queue := [BlockPacket(contents, k)],
               terminatingBlockNo := Term(contents, k), source := SourceAfter(contents, k))
  {
    ReadChunkAfter(contents, k);
    ChunkSizes(contents, k);
  }

  lemma SendQueued(s: SenderState, k: nat, chunk: Bytes)
    requires k < 0x1_0000 && |chunk| <= DataSize && s.queue == [DataWire(k, chunk)]
    ensures SendPacket(s) == (s.(queue := [], transferComplete := s.transferComplete || |chunk| < DataSize), Some(DataWire(k, chunk)))
  {
    assert Prefix(DataWire(k, chunk)) == [0, 2];
  }

  /** Taking the waiting ACK of block 0, the sender reads block 1 and sends it. */
  lemma FirstSenderStep(name: string, contents: Bytes, now: int)
    requires IsAscii(name) && Sendable(contents)
    ensures StepWaiting(Opened(name, contents, now).sender, now, AckWire(0))
         == StepResult(Written(name, contents, now, 1).sender, Some(BlockPacket(contents, 1)))
  {
    var s := Opened(name, contents, now).sender;
    assert CheckTime(s, now) == (true, s);
    AckAccepted(s, now);
    var s1 := s.(lastActive := now, blockNo := 1);
    assert Open(contents) == SourceAfter(contents, 0);
    QueueBlock(contents, s1, 1);
    ChunkSizes(contents, 1);
    SendQueued(EnqueueNextBlock(s1), 1, Chunk(contents, 1));
  }

  /** Block 1 reaches the session opened by the INITRQ and is written. */
  lemma FirstDelivery(name: string, contents: Bytes, now: int)
    requires IsAscii(name) && Sendable(contents)
    ensures var sys := Opened(name, contents, now);
      Deliver(sys.(sender := Written(name, contents, now, 1).sender, inbox := []), Some(BlockPacket(contents, 1)), now)
      == Written(name, contents, now, 1)
  {
    var sys := Opened(name, contents, now);
    ChunkSizes(contents, 1);
    DataToSession(sys.table[Peer], 1, Chunk(contents, 1), now);
    assert Chunks(contents, 1) == [Chunk(contents, 1)];
  }

  /** The first iteration takes the waiting ACK of block 0 and sends block 1, which is written. */
  lemma FirstStep(name: string, contents: Bytes, now: int)
    requires IsAscii(name) && Sendable(contents)
    ensures SystemStep(Opened(name, contents, now), now) == Written(name, contents, now, 1)
  {
    var sys := Opened(name, contents, now);
    FirstSenderStep(name, contents, now);
    FirstDelivery(name, contents, now);
    assert CheckTime(sys.sender, now).0;
  }

  /** The sender's half: it resends block k, and the ACK of block k makes it queue block k + 1. */
  lemma AckSenderStep(name: string, contents: Bytes, now: int, k: nat)
    requires Sendable(contents) && 1 <= k < NumBlocks(contents)
    ensures var s := Written(name, contents, now, k).sender;
      && SendPhase(s, now) == (s, Some(BlockPacket(contents, k)), true)
      && Step(s, now, Datagram(AckWire(k))).state == Queued(name, contents, now, k + 1).sender
  {
    var s := Written(name, contents, now, k).sender;
    ChunkSizes(contents, k);
    assert CheckTime(s, now) == (true, s);
    assert SendPhase(s, now) == (s, Some(BlockPacket(contents, k)), true);
    AckAccepted(s, now);
    QueueBlock(contents, s.(lastActive := now, blockNo := k + 1), k + 1);
  }

  /** The receiver's half: a resent block k is acknowledged again and not written twice. */
  lemma AckDelivery(name: string, contents: Bytes, now: int, k: nat)
    requires Sendable(contents) && 1 <= k < NumBlocks(contents)
    ensures var sys := Written(name, contents, now, k);
      Deliver(sys, Some(BlockPacket(contents, k)), now) == sys.(inbox := [AckWire(k)])
  {
    var sys := Written(name, contents, now, k);
    ChunkSizes(contents, k);
    DataToSession(sys.table[Peer], k, Chunk(contents, k), now);
  }

  /** With block k written and not last, resending it earns its ACK and the sender queues block k + 1. */
  lemma AckStep(name: string, contents: Bytes, now: int, k: nat)
    requires Sendable(contents) && 1 <= k < NumBlocks(contents)
    ensures SystemStep(Written(name, contents, now, k), now) == Queued(name, contents, now, k + 1)
  {
    AckSenderStep(name, contents, now, k);
    AckDelivery(name, contents, now, k);
  }

  /** With block k queued, sending it gets it written; the last block completes both sides. */
  lemma WriteStep(name: string, contents: Bytes, now: int, k: nat)
    requires Sendable(contents) && 2 <= k <= NumBlocks(contents)
    ensures SystemStep(Queued(name, contents, now, k), now) == Written(name, contents, now, k)
  {
    var sys := Queued(name, contents, now, k);
    var s := sys.sender;
    ChunkSizes(contents, k);
    assert CheckTime(s, now) == (true, s);
    SendQueued(s, k, Chunk(contents, k));
    assert SendPhase(s, now).1 == Some(BlockPacket(contents, k));
    DataToSession(sys.table[Peer], k, Chunk(contents, k), now);
  }

  // ---------------------------------------------------------------------------
  // The whole transfer
  // ---------------------------------------------------------------------------

  /** Sending the INITRQ of an ASCII name of at most 509 characters opens one session, acknowledged with block 0. */
  lemma BeginOpens(name: string, contents: Bytes, now: int)
    requires name != "" && IsAscii(name) && |name| <= MaxPacketSize - 3
    ensures Begin(name, contents, now) == Success(Opened(name, contents, now))
  {
    var init := InitrqWire(name);
    InitrqRoundTrip(name);
    BuildInitrqLayout(name);
    assert Prefix(init) == [0, 1];
    assert CleanUp(map[], now, false) == map[];
    NewSessionOnlyFromInitrq(map[], init, Peer, now);
  }

  lemma RunUnfold(sys: System, now: int, fuel: nat)
    requires fuel > 0 && Running(sys.sender)
    ensures Run(sys, now, fuel) == Run(SystemStep(sys, now), now, fuel - 1)
  {
    assert Run(sys, now, fuel) == Iterate(sys, now, fuel);
    if |sys.inbox| > 0 {
      assert Iterate(sys, now, fuel) == IterateWaiting(sys, now, fuel);
      assert SystemStep(sys, now) == WaitingStep(sys, now);
    } else {
      assert Iterate(sys, now, fuel) == IterateListening(sys, now, fuel);
      assert SystemStep(sys, now) == ListeningStep(sys, now);
    }
  }

  lemma RunStops(sys: System, now: int, fuel: nat)
    requires !Running(sys.sender)
    ensures Run(sys, now, fuel) == sys
  {
  }

  lemma RunAckStep(name: string, contents: Bytes, now: int, k: nat, fuel: nat)
    requires Sendable(contents) && 1 <= k < NumBlocks(contents) && fuel > 0
    ensures Run(Written(name, contents, now, k), now, fuel) == Run(Queued(name, contents, now, k + 1), now, fuel - 1)
  {
    AckStep(name, contents, now, k);
    RunUnfold(Written(name, contents, now, k), now, fuel);
  }

  lemma RunWriteStep(name: string, contents: Bytes, now: int, k: nat, fuel: nat)
    requires Sendable(contents) && 2 <= k <= NumBlocks(contents) && fuel > 0
    ensures Run(Queued(name, contents, now, k), now, fuel) == Run(Written(name, contents, now, k), now, fuel - 1)
  {
    WriteStep(name, contents, now, k);
    RunUnfold(Queued(name, contents, now, k), now, fuel);
  }

  /** Two iterations take the run from block k written to block k + 1 written. */
  lemma RunNextBlock(name: string, contents: Bytes, now: int, k: nat, fuel: nat)
    requires Sendable(contents) && 1 <= k < NumBlocks(contents) && fuel >= 2
    ensures Run(Written(name, contents, now, k), now, fuel) == Run(Written(name, contents, now, k + 1), now, fuel - 2)
  {
    RunAckStep(name, contents, now, k, fuel);
    RunWriteStep(name, contents, now, k + 1, fuel - 1);
  }

  /** Enough iterations left to go from block k written to the last block written. */
  predicate Budget(contents: Bytes, k: nat, fuel: nat)
  {
    Sendable(contents) && 1 <= k <= NumBlocks(contents) && fuel >= 2 * (NumBlocks(contents) - k)
  }

  lemma {:induction false} RunFromWritten(name: string, contents: Bytes, now: int, k: nat, fuel: nat)
    requires Budget(contents, k, fuel)
    ensures Run(Written(name, contents, now, k), now, fuel) == Written(name, contents, now, NumBlocks(contents))
    decreases NumBlocks(contents) - k
  {
    if k < NumBlocks(contents) {
      RunNextBlock(name, contents, now, k, fuel);
      RunFromWritten(name, contents, now, k + 1, fuel - 2);
    } else {
      RunStops(Written(name, contents, now, k), now, fuel);
    }
  }

  lemma RunFirstStep(name: string, contents: Bytes, now: int, fuel: nat)
    requires IsAscii(name) && Sendable(contents) && fuel > 0
    ensures Run(Opened(name, contents, now), now, fuel) == Run(Written(name, contents, now, 1), now, fuel - 1)
  {
    FirstStep(name, contents, now);
    RunUnfold(Opened(name, contents, now), now, fuel);
  }

  /** From the INITRQ's acknowledgement waiting, 2N - 1 iterations write the whole file. */
  lemma RunFromOpened(name: string, contents: Bytes, now: int, fuel: nat)
    requires IsAscii(name) && Sendable(contents) && fuel >= 2 * NumBlocks(contents) - 1
    ensures Run(Opened(name, contents, now), now, fuel) == Written(name, contents, now, NumBlocks(contents))
  {
    var n := NumBlocks(contents);
    assert fuel > 0 && Budget(contents, 1, fuel - 1);
    assert Run(Opened(name, contents, now), now, fuel) == Run(Written(name, contents, now, 1), now, fuel - 1) by {
      RunFirstStep(name, contents, now, fuel);
    }
    assert Run(Written(name, contents, now, 1), now, fuel - 1) == Written(name, contents, now, n) by {
      RunFromWritten(name, contents, now, 1, fuel - 1);
    }
  }

  /**
   Over a lossless network, a file of at most 65535 blocks sent under an
   ASCII name of 1 to 509 characters arrives whole: with ACK 0 waiting before
   the first iteration, after 2N - 1 iterations for N blocks the sender has completed without error, the receiver has
   written the file's chunks in order, each once, which put together are the
   file, and its session is complete, so the next clean-up drops it.
   */
  lemma LosslessTransfer(name: string, contents: Bytes, now: int, fuel: nat)
    requires name != "" && IsAscii(name) && |name| <= MaxPacketSize - 3
    requires Sendable(contents)
    requires fuel >= 2 * NumBlocks(contents) - 1
    ensures Begin(name, contents, now).Success?
    ensures var fin := Run(Begin(name, contents, now).value, now, fuel);
      && fin.sender.transferComplete && !fin.sender.errorOccurred
      && fin.sink == Chunks(contents, NumBlocks(contents))
      && Concat(fin.sink) == contents
      && fin.table == map[Peer := Session(true, NumBlocks(contents), Some(name), now)]
      && fin.inbox == []
  {
    BeginOpens(name, contents, now);
    RunFromOpened(name, contents, now, fuel);
    WholeFile(contents);
  }
}

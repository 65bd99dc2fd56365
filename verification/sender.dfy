/**
 The sending side of a transfer (class `Sender` of pygftlib/protocol.py) as a
 pure state machine.

 After the INITRQ handshake packet is sent, the sender loops until the
 transfer is complete or has failed. One iteration of the loop runs two
 cooperating tasks, `handle_ack` and `send_packet`; `handle_ack` only gives
 way to `send_packet` at its socket read, so an iteration is, in order:
   1. the timeout rule, which may abort or queue a resend of the last packet;
   2. sending the head of the send queue, or the last packet when the queue is empty;
   3. processing what the socket read returned: an ACK, another datagram, or nothing.
 Time is in whole seconds; the socket read is the `incoming` parameter.

 A stop-and-wait sender keeps one packet for retransmission (`lastPacket`)
 and advances its block counter by one for each ACK that carries it.
 */
module Sender {
  import opened Wrappers
  import opened Errors
  import opened Constants
  import opened Helpers
  import opened Packets
  import opened PacketFactory
  import opened FileSource

  datatype SenderState = SenderState(
    transferComplete: bool,
    errorOccurred: bool,
    /** The packet kept for retransmission: the INITRQ, then the latest DATA built. */
    lastPacket: Bytes,
    /** The block number the next ACK must carry. */
    blockNo: nat,
    terminatingBlockNo: Option<nat>,
    /** When an ACK-sized datagram was last heard, or the INITRQ sent. */
    lastActive: int,
    /** The FIFO send queue. */
    queue: seq<Bytes>,
    source: Source)

  predicate Running(s: SenderState)
  {
    !s.transferComplete && !s.errorOccurred
  }

  /** What the socket read in `handle_ack` returns: nothing before its one-second timeout, or a datagram. */
  datatype Incoming = Timeout | Datagram(data: Bytes)

  /** The read asks for MIN_PACKET_SIZE bytes, so a longer datagram is cut to its first 4 bytes. */
  function Received(data: Bytes): Bytes
  {
    Take(data, MinPacketSize)
  }

  /**
   Creating a sender for a named file and sending its INITRQ at time `now`:
   the result is the sender and the packet sent. An empty name exits the
   program; a name that is not ASCII cannot be encoded.
   */
  function Start(fileName: string, contents: Bytes, now: int): (r: Result<(SenderState, Bytes), Error>)
    ensures r.Success? <==> fileName != "" && IsAscii(fileName)
    ensures fileName == "" ==> r == Failure(SystemExit)
    ensures r.Success? ==>
      && r.value.1 == InitrqWire(fileName)
      && r.value.0 == SenderState(false, false, InitrqWire(fileName), 0, None, now, [], Open(contents))
  {
    if fileName == "" then Failure(SystemExit)
    else
      InitrqFactoryWire(fileName);
      var init :- ToBytes(Some("initrq"), NoArgs.(fileName := Some(Str(fileName))));
      Success((SenderState(false, false, init, 0, None, now, [], Open(contents)), init))
  }

  /** The INITRQ the factory builds for an ASCII name is the INITRQ wire layout; any other name raises. */
  lemma InitrqFactoryWire(name: string)
    ensures ToBytes(Some("initrq"), NoArgs.(fileName := Some(Str(name)))).Success? <==> IsAscii(name)
    ensures IsAscii(name) ==> ToBytes(Some("initrq"), NoArgs.(fileName := Some(Str(name)))) == Success(InitrqWire(name))
  {
    assert Upper("initrq") == "INITRQ";
    BuildInitrqLayout(name);
  }

  // ---------------------------------------------------------------------------
  // The send queue
  // ---------------------------------------------------------------------------

  /** `_add_to_send_queue(packet=p)`: a resend queues the packet unchanged. */
  function Resend(s: SenderState, p: Bytes): (r: SenderState)
    ensures r.queue == s.queue + [p]
    ensures r == s.(queue := r.queue)
  {
    s.(queue := s.queue + [p])
  }

  /**
   `_add_to_send_queue()`: reads the next chunk of at most DATA_SIZE bytes,
   builds DATA(blockNo, chunk), keeps it as the last packet and queues it,
   remembering blockNo as the terminating block when the packet is short.
   A block number past 16 bits cannot be packed: the chunk has been read but
   nothing is built.
   */
  function EnqueueNextBlock(s: SenderState): (r: SenderState)
    ensures var (chunk, rest) := ReadChunk(s.source, DataSize);
      s.blockNo < 0x1_0000 ==>
        r == s.(source := rest,
                lastPacket := DataWire(s.blockNo, chunk),
                queue := s.queue + [DataWire(s.blockNo, chunk)],
                terminatingBlockNo := if |chunk| < DataSize then Some(s.blockNo) else s.terminatingBlockNo)
    ensures s.blockNo >= 0x1_0000 ==> r == s.(source := ReadChunk(s.source, DataSize).1)
  {
    var (chunk, rest) := ReadChunk(s.source, DataSize);
    var s1 := s.(source := rest);
    DataFactoryWire(s.blockNo, chunk);
    match ToBytes(Some("data"), NoArgs.(blockNo := Some(Int(s.blockNo)), data := Some(Raw(chunk))))
    case Failure(_) => s1
    case Success(p) =>
      var s2 := s1.(lastPacket := p);
      if IsValid(Some("data"), p) == Success(true) && CheckType(Some("data"), p) == Success(true) then
        s2.(terminatingBlockNo := if |p| != MaxPacketSize then Some(s.blockNo) else s2.terminatingBlockNo,
            queue := s2.queue + [p])
      else s2
  }

  /** The DATA the factory builds is the DATA wire layout, which validates and checks as DATA; a 17-bit block number overflows. */
  lemma DataFactoryWire(block: nat, chunk: Bytes)
    ensures ToBytes(Some("data"), NoArgs.(blockNo := Some(Int(block)), data := Some(Raw(chunk)))).Success? <==> block < 0x1_0000
    ensures block < 0x1_0000 ==>
      && ToBytes(Some("data"), NoArgs.(blockNo := Some(Int(block)), data := Some(Raw(chunk)))) == Success(DataWire(block, chunk))
      && CheckType(Some("data"), DataWire(block, chunk)) == Success(true)
      && IsValid(Some("data"), DataWire(block, chunk)) == Success(4 + |chunk| <= MaxPacketSize)
  {
    assert Upper("data") == "DATA";
    if block < 0x1_0000 {
      BuildDataLayout(block, chunk);
      assert Prefix(DataWire(block, chunk)) == [0, 2];
    }
  }

  // ---------------------------------------------------------------------------
  // One loop iteration
  // ---------------------------------------------------------------------------

  /**
   `_check_time`, with the elapsed time truncated to whole seconds: false once
   the peer has been silent for more than MAX_NO_RESPONSE_TIME; a resend of
   the last packet when the silence is strictly between NO_RESPONSE_TIME and
   MAX_NO_RESPONSE_TIME; otherwise nothing. A silence of exactly
   MAX_NO_RESPONSE_TIME neither resends nor aborts.
   */
  function CheckTime(s: SenderState, now: int): (r: (bool, SenderState))
    ensures !r.0 <==> now - s.lastActive > MaxNoResponseTime
    ensures NoResponseTime < now - s.lastActive < MaxNoResponseTime ==> r.1 == Resend(s, s.lastPacket)
    ensures !(NoResponseTime < now - s.lastActive < MaxNoResponseTime) ==> r.1 == s
  {
    var elapsed := now - s.lastActive;
    if elapsed > MaxNoResponseTime then (false, s)
    else if elapsed < MaxNoResponseTime && elapsed > NoResponseTime then (true, Resend(s, s.lastPacket))
    else (true, s)
  }

  /**
   `send_packet`: sends the head of the queue, or the last packet when the
   queue is empty, and marks the transfer complete when what it sends is a
   DATA packet shorter than MAX_PACKET_SIZE. A short packet whose prefix is
   no opcode fails the type check, and the task ends before sending.
   */
  function SendPacket(s: SenderState): (r: (SenderState, Option<Bytes>))
    ensures var p := if |s.queue| > 0 then s.queue[0] else s.lastPacket;
      && r.1 == (if |p| < MaxPacketSize && !KnownPrefix(p) then None else Some(p))
      && r.0.queue == (if |s.queue| > 0 then s.queue[1..] else s.queue)
      && (r.0.transferComplete <==> s.transferComplete || (|p| < MaxPacketSize && Prefix(p) == [0, 2]))
      && r.0 == s.(queue := r.0.queue, transferComplete := r.0.transferComplete)
  {
    var (p, s1) := if |s.queue| > 0 then (s.queue[0], s.(queue := s.queue[1..])) else (s.lastPacket, s);
    if |p| < MaxPacketSize then
      match CheckType(Some("data"), p)
      case Failure(_) => (s1, None)
      case Success(isData) => (if isData then s1.(transferComplete := true) else s1, Some(p))
    else (s1, Some(p))
  }

  /**
   The rest of `handle_ack` once the socket read returns. A datagram that
   fails the ACK size check changes nothing. Any 4-byte datagram with a
   known opcode that decodes refreshes `lastActive`, even an ACK of the wrong
   block; only an ACK of the expected block advances the counter and queues
   the next DATA block.
   */
  function ReceiveAck(s: SenderState, now: int, incoming: Incoming): (r: SenderState)
  {
    match incoming
    case Timeout => s
    case Datagram(raw) =>
      var data := Received(raw);
      if IsValid(Some("ack"), data) != Success(true) then s
      else match FromBytes(data)
        case Failure(_) => s
        case Success(v) =>
          var s1 := s.(lastActive := now);
          if v == AckNo(s.blockNo) then EnqueueNextBlock(s1.(blockNo := s.blockNo + 1)) else s1
  }

  /** Steps 1 and 2 of an iteration; the flag says whether `handle_ack` goes on to read the socket. */
  function SendPhase(s: SenderState, now: int): (r: (SenderState, Option<Bytes>, bool))
  {
    var (alive, s1) := CheckTime(s, now);
    var listening := alive && !s1.transferComplete;
    var s2 := if listening then s1 else s1.(errorOccurred := true);
    var (s3, sent) := SendPacket(s2);
    (s3, sent, listening)
  }

  datatype StepResult = StepResult(state: SenderState, sent: Option<Bytes>)

  /**
   One iteration of the upload loop at time `now` that finds no datagram
   waiting: `handle_ack` blocks in its read, `send_packet` sends, and the read
   then returns `incoming`.
   */
  function Step(s: SenderState, now: int, incoming: Incoming): StepResult
  {
    var (s1, sent, listening) := SendPhase(s, now);
    StepResult(if listening then ReceiveAck(s1, now, incoming) else s1, sent)
  }

  /**
   One iteration that finds the datagram `waiting` already in the socket: the
   read returns it at once, so `handle_ack` runs to its end before
   `send_packet` starts.
   */
  function StepWaiting(s: SenderState, now: int, waiting: Bytes): StepResult
  {
    var (alive, s1) := CheckTime(s, now);
    var listening := alive && !s1.transferComplete;
    var s2 := if listening then ReceiveAck(s1, now, Datagram(waiting)) else s1.(errorOccurred := true);
    var (s3, sent) := SendPacket(s2);
    StepResult(s3, sent)
  }

  // ---------------------------------------------------------------------------
  // Properties
  // ---------------------------------------------------------------------------

  /** Every packet the sender holds starts with an opcode: it only ever queues the INITRQ and DATA it built. */
  predicate WellFormed(s: SenderState)
  {
    KnownPrefix(s.lastPacket) && forall i :: 0 <= i < |s.queue| ==> KnownPrefix(s.queue[i])
  }

  /** An ACK read off the socket arrives whole, passes the ACK check and decodes to its block. */
  lemma AckWireReceived(block: nat)
    requires block < 0x1_0000
    ensures Received(AckWire(block)) == AckWire(block)
    ensures IsValid(Some("ack"), AckWire(block)) == Success(true)
    ensures FromBytes(AckWire(block)) == Success(AckNo(block))
  {
    var d := AckWire(block);
    AckRoundTrip(block);
    assert Received(d) == d;
    assert Prefix(d) == [0, 3];
    assert Upper("ack") == "ACK";
  }

  /** A datagram that fails the ACK check, or no datagram at all, leaves the sender unchanged. */
  lemma InvalidAckIgnored(s: SenderState, now: int, incoming: Incoming)
    requires incoming.Timeout? || IsValid(Some("ack"), Received(incoming.data)) != Success(true)
    ensures ReceiveAck(s, now, incoming) == s
  {
  }

  /**
   A valid ACK refreshes `lastActive`; if it carries the expected block the
   counter grows by exactly one and exactly one new DATA packet is queued,
   otherwise the counter and the queue are unchanged. (The new DATA is built
   only while the new block still fits in 16 bits; see LastBlockNumberOverflows.)
   */
  lemma ValidAckHandling(s: SenderState, now: int, block: nat)
    requires block < 0x1_0000
    ensures var r := ReceiveAck(s, now, Datagram(AckWire(block)));
      && r.lastActive == now
      && (block == s.blockNo ==> r.blockNo == s.blockNo + 1)
      && (block == s.blockNo && s.blockNo < 0xFFFF ==>
            && r.blockNo == s.blockNo + 1
            && |r.queue| == |s.queue| + 1 && r.queue[..|s.queue|] == s.queue
            && r.queue[|s.queue|] == r.lastPacket
            && r.lastPacket == DataWire(r.blockNo, ReadChunk(s.source, DataSize).0))
      && (block != s.blockNo ==> r == s.(lastActive := now))
  {
    AckWireReceived(block);
  }

  /**
   Any datagram whose first 4 bytes have a known opcode and decode passes the
   ACK size check and refreshes `lastActive`, whatever its type; one that is
   no ACK changes nothing else.
   */
  lemma AckSizedRefreshes(s: SenderState, now: int, raw: Bytes)
    requires |raw| >= 4 && KnownPrefix(Received(raw)) && FromBytes(Received(raw)).Success?
    ensures ReceiveAck(s, now, Datagram(raw)).lastActive == now
    ensures Prefix(Received(raw)) != [0, 3] ==> ReceiveAck(s, now, Datagram(raw)) == s.(lastActive := now)
  {
    var data := Received(raw);
    IsValidBounds(data);
    assert |data| == 4;
    if Prefix(data) != [0, 3] {
      assert FromBytes(data).value != AckNo(s.blockNo);
    }
  }

  /** Only an ACK advances the sender: any datagram whose prefix is not `00 03` leaves the counter and the queue alone. */
  lemma OnlyAckAdvances(s: SenderState, now: int, raw: Bytes)
    requires Prefix(Received(raw)) != [0, 3]
    ensures ReceiveAck(s, now, Datagram(raw)).blockNo == s.blockNo
    ensures ReceiveAck(s, now, Datagram(raw)).queue == s.queue
  {
  }

  /** With the counter past 16 bits of room, a matching ACK advances the counter but queues nothing: the DATA cannot be built. */
  lemma LastBlockNumberOverflows(s: SenderState, now: int)
    requires s.blockNo == 0xFFFF
    ensures var r := ReceiveAck(s, now, Datagram(AckWire(0xFFFF)));
      r.blockNo == 0x1_0000 && r.queue == s.queue && r.lastPacket == s.lastPacket && r.lastActive == now
  {
    AckWireReceived(0xFFFF);
  }

  /** A running sender sets its error flag in an iteration exactly when the peer has been silent for more than MAX_NO_RESPONSE_TIME. */
  lemma AbortsIffSilent(s: SenderState, now: int, incoming: Incoming)
    requires Running(s)
    ensures Step(s, now, incoming).state.errorOccurred <==> now - s.lastActive > MaxNoResponseTime
  {
  }

  /** A running sender sends a packet in every iteration as long as every packet it holds starts with an opcode. */
  lemma WellFormedSends(s: SenderState, now: int, incoming: Incoming)
    requires WellFormed(s)
    ensures Step(s, now, incoming).sent.Some?
  {
    var (alive, s1) := CheckTime(s, now);
    assert WellFormed(s1);
  }

  /** The transfer completes in an iteration exactly when the packet sent is a DATA packet shorter than MAX_PACKET_SIZE, so sending INITRQ never completes it. */
  lemma CompletesOnShortData(s: SenderState, now: int, incoming: Incoming)
    requires Running(s)
    ensures var r := Step(s, now, incoming);
      r.state.transferComplete <==> r.sent.Some? && |r.sent.value| < MaxPacketSize && Prefix(r.sent.value) == [0, 2]
  {
    var (s1, sent, listening) := SendPhase(s, now);
    if listening {
      ReceiveAckKeepsFlags(s1, now, incoming);
    }
  }

  lemma ReceiveAckKeepsFlags(s: SenderState, now: int, incoming: Incoming)
    ensures ReceiveAck(s, now, incoming).transferComplete == s.transferComplete
    ensures ReceiveAck(s, now, incoming).errorOccurred == s.errorOccurred
  {
  }

  lemma ReceiveAckWellFormed(s: SenderState, now: int, incoming: Incoming)
    requires WellFormed(s)
    ensures WellFormed(ReceiveAck(s, now, incoming))
  {
    if incoming.Datagram? {
      var data := Received(incoming.data);
      if IsValid(Some("ack"), data) == Success(true) && FromBytes(data).Success? {
        var s1 := s.(lastActive := now);
        if FromBytes(data).value == AckNo(s.blockNo) {
          var s2 := s1.(blockNo := s.blockNo + 1);
          if s2.blockNo < 0x1_0000 {
            var chunk := ReadChunk(s2.source, DataSize).0;
            assert Prefix(DataWire(s2.blockNo, chunk)) == [0, 2];
          }
        }
      }
    }
  }

  /** The sender only ever holds packets that start with an opcode: each iteration keeps that so. */
  lemma StepPreservesWellFormed(s: SenderState, now: int, incoming: Incoming)
    requires WellFormed(s)
    ensures WellFormed(Step(s, now, incoming).state)
  {
    var (alive, s1) := CheckTime(s, now);
    assert WellFormed(s1);
    var (s3, sent, listening) := SendPhase(s, now);
    assert WellFormed(s3);
    if listening {
      ReceiveAckWellFormed(s3, now, incoming);
    }
  }

  /** A freshly started sender holds only its INITRQ, which starts with an opcode. */
  lemma StartWellFormed(fileName: string, contents: Bytes, now: int)
    requires Start(fileName, contents, now).Success?
    ensures WellFormed(Start(fileName, contents, now).value.0)
  {
    assert Prefix(InitrqWire(fileName)) == [0, 1];
  }

  /** The block counter never goes back and moves by at most one per iteration. */
  lemma BlockNoMonotone(s: SenderState, now: int, incoming: Incoming)
    ensures var r := Step(s, now, incoming).state;
      r.blockNo == s.blockNo || r.blockNo == s.blockNo + 1
  {
  }

  /** Iterations that find a datagram waiting keep each of the properties above. */
  lemma AbortsIffSilentWaiting(s: SenderState, now: int, waiting: Bytes)
    requires Running(s)
    ensures StepWaiting(s, now, waiting).state.errorOccurred <==> now - s.lastActive > MaxNoResponseTime
  {
    ReceiveAckKeepsFlags(CheckTime(s, now).1, now, Datagram(waiting));
  }

  lemma WellFormedSendsWaiting(s: SenderState, now: int, waiting: Bytes)
    requires WellFormed(s)
    ensures StepWaiting(s, now, waiting).sent.Some?
  {
    var (alive, s1) := CheckTime(s, now);
    assert WellFormed(s1);
    ReceiveAckWellFormed(s1, now, Datagram(waiting));
  }

  lemma CompletesOnShortDataWaiting(s: SenderState, now: int, waiting: Bytes)
    requires Running(s)
    ensures var r := StepWaiting(s, now, waiting);
      r.state.transferComplete <==> r.sent.Some? && |r.sent.value| < MaxPacketSize && Prefix(r.sent.value) == [0, 2]
  {
    var (alive, s1) := CheckTime(s, now);
    ReceiveAckKeepsFlags(s1, now, Datagram(waiting));
  }

  lemma StepWaitingPreservesWellFormed(s: SenderState, now: int, waiting: Bytes)
    requires WellFormed(s)
    ensures WellFormed(StepWaiting(s, now, waiting).state)
  {
    var (alive, s1) := CheckTime(s, now);
    assert WellFormed(s1);
    ReceiveAckWellFormed(s1, now, Datagram(waiting));
    var s2 := if alive && !s1.transferComplete then ReceiveAck(s1, now, Datagram(waiting)) else s1.(errorOccurred := true);
    assert WellFormed(s2);
  }

  lemma BlockNoMonotoneWaiting(s: SenderState, now: int, waiting: Bytes)
    ensures var r := StepWaiting(s, now, waiting).state;
      r.blockNo == s.blockNo || r.blockNo == s.blockNo + 1
  {
  }

  // ---------------------------------------------------------------------------
  // Resends and the send queue
  // ---------------------------------------------------------------------------

  /** Sending `n` times in a row: the state after, and what each send sent, in order. */
  function SendTimes(s: SenderState, n: nat): (SenderState, seq<Option<Bytes>>)
    decreases n
  {
    if n == 0 then (s, [])
    else
      var (s1, sent) := SendPacket(s);
      var (s2, rest) := SendTimes(s1, n - 1);
      (s2, [sent] + rest)
  }

  /** While the queue is non-empty, a resend waits at its back: sending first changes nothing about it. */
  lemma ResendCommutesWithSend(s: SenderState, p: Bytes)
    requires |s.queue| > 0
    ensures SendPacket(Resend(s, p)) == (Resend(SendPacket(s).0, p), SendPacket(s).1)
  {
    assert (s.queue + [p])[1..] == s.queue[1..] + [p];
  }

  /**
   A resent packet goes out only after every packet already queued: the
   sends that drain the old queue send the same packets with or without the
   resend, after them the queue holds just the resent packet, and the next
   send sends it.
   */
  lemma {:induction false} ResendSentAfterQueued(s: SenderState, p: Bytes)
    ensures var (a, sentA) := SendTimes(Resend(s, p), |s.queue|);
      var (b, sentB) := SendTimes(s, |s.queue|);
      && sentA == sentB
      && b.queue == []
      && a == Resend(b, p)
      && SendPacket(a).1 == (if |p| < MaxPacketSize && !KnownPrefix(p) then None else Some(p))
    decreases |s.queue|
  {
    if |s.queue| > 0 {
      ResendCommutesWithSend(s, p);
      ResendSentAfterQueued(SendPacket(s).0, p);
    }
  }

  // ---------------------------------------------------------------------------
  // A peer that never answers
  // ---------------------------------------------------------------------------

  /** Iterating while running, at the given times, with every socket read timing out. */
  function RunSilent(s: SenderState, times: seq<int>): SenderState
    decreases |times|
  {
    if |times| == 0 || !Running(s) then s else RunSilent(Step(s, times[0], Timeout).state, times[1..])
  }

  /**
   With no reply at all, a running sender stops at the first iteration
   held more than MAX_NO_RESPONSE_TIME after its last activity, and does
   not set its error flag while every iteration is within that time.
   */
  lemma {:induction false} SilentPeerAborts(s: SenderState, times: seq<int>)
    requires Running(s)
    ensures (exists i :: 0 <= i < |times| && times[i] - s.lastActive > MaxNoResponseTime) ==> !Running(RunSilent(s, times))
    ensures (forall i :: 0 <= i < |times| ==> times[i] - s.lastActive <= MaxNoResponseTime) ==> !RunSilent(s, times).errorOccurred
    ensures RunSilent(s, times).lastActive == s.lastActive
    decreases |times|
  {
    if |times| > 0 {
      var s' := Step(s, times[0], Timeout).state;
      AbortsIffSilent(s, times[0], Timeout);
      assert s'.lastActive == s.lastActive;
      if Running(s') {
        SilentPeerAborts(s', times[1..]);
        if exists i :: 0 <= i < |times| && times[i] - s.lastActive > MaxNoResponseTime {
          var i :| 0 <= i < |times| && times[i] - s.lastActive > MaxNoResponseTime;
          assert i > 0;
          assert times[1..][i - 1] == times[i];
        }
        if forall i :: 0 <= i < |times| ==> times[i] - s.lastActive <= MaxNoResponseTime {
          assert forall i :: 0 <= i < |times[1..]| ==> times[1..][i] == times[i + 1];
        }
      }
    }
  }
}

/**
 The receiving side (class `Receiver` of pygftlib/protocol.py): one socket
 serves many senders, with one session per peer address. Each datagram is
 handled to completion by `Handle`, a pure function from the session table,
 the datagram, its source address and the time in whole seconds to the new
 table, the packets sent back to that address and the chunks written to
 that address's file.

 Handling first drops every session that is complete or idle for more than
 CONN_TIMEOUT. A new address gets a session only from a valid INITRQ. From a
 known address, an INITRQ is answered with the current ACK again; a DATA
 packet one past the expected block is written (and not acknowledged), a
 DATA packet of the expected block is acknowledged again (and not written),
 and any other block is ignored; any DATA packet shorter than
 MAX_PACKET_SIZE completes the session, whatever its block number.
 */
module Receiver {
  import opened Wrappers
  import opened Errors
  import opened Constants
  import opened Helpers
  import opened Packets
  import opened PacketFactory

  /** A peer's (host, port). */
  datatype Address = Address(host: string, port: int)

  /** The per-client record: the file's sink itself is outside the model; what is written to it is an output of `Handle`. */
  datatype Session = Session(
    transferComplete: bool,
    /** The last block accepted; 0 right after the handshake. */
    blockNumber: nat,
    /** The decoded file name; None when it was not ASCII. */
    fileName: Option<string>,
    lastActive: int)

  type Table = map<Address, Session>

  /** What handling one datagram yields: the new table, the packets sent to the datagram's source, the chunks written to its file. */
  datatype Reply = Reply(table: Table, sent: seq<Bytes>, written: seq<Bytes>)

  /** The session's `inactive()` closure: whole seconds since its last activity. */
  function Inactive(sess: Session, now: int): int
  {
    now - sess.lastActive
  }

  /** A session `_clean_up` removes. */
  predicate Expired(sess: Session, now: int)
  {
    Inactive(sess, now) > ConnTimeout || sess.transferComplete
  }

  /**
   `_clean_up(purge)`: without purge, drops exactly the complete or idle
   sessions and keeps every other one unchanged; with purge, drops them all.
   */
  function CleanUp(table: Table, now: int, purge: bool): (r: Table)
    ensures purge ==> r == map[]
    ensures !purge ==> forall a :: a in r <==> a in table && !Expired(table[a], now)
    ensures forall a :: a in r ==> a in table && r[a] == table[a]
  {
    if purge then map[] else map a | a in table && !Expired(table[a], now) :: table[a]
  }

  /**
   `send_ack`: the session is active now and its current block number is
   acknowledged. A block number past 16 bits cannot be packed, so nothing is
   sent, although the session is refreshed first.
   */
  function SendAck(sess: Session, now: int): (r: (Session, seq<Bytes>))
    ensures r.0 == sess.(lastActive := now)
    ensures sess.blockNumber < 0x1_0000 ==> r.1 == [AckWire(sess.blockNumber)]
    ensures sess.blockNumber >= 0x1_0000 ==> r.1 == []
  {
    var sess' := sess.(lastActive := now);
    AckFactoryWire(sess.blockNumber);
    match ToBytes(Some("ack"), NoArgs.(blockNo := Some(Int(sess.blockNumber))))
    case Success(p) => (sess', [p])
    case Failure(_) => (sess', [])
  }

  lemma AckFactoryWire(block: nat)
    ensures ToBytes(Some("ack"), NoArgs.(blockNo := Some(Int(block)))).Success? <==> block < 0x1_0000
    ensures block < 0x1_0000 ==> ToBytes(Some("ack"), NoArgs.(blockNo := Some(Int(block)))) == Success(AckWire(block))
  {
    assert Upper("ack") == "ACK";
    if block < 0x1_0000 {
      AckRoundTrip(block);
    }
  }

  /** `disconnect_client`: marks the session complete, for the next clean-up to drop. */
  function Disconnect(sess: Session): (r: Session)
    ensures r.transferComplete && r == sess.(transferComplete := true)
  {
    sess.(transferComplete := true)
  }

  /** `handle`: one datagram `data` from `addr` at time `now`. */
  function Handle(table: Table, data: Bytes, addr: Address, now: int): (r: Reply)
  {
    var t := CleanUp(table, now, false);
    if addr !in t then
      if CheckType(Some("initrq"), data) == Success(true) && IsValid(Some("initrq"), data) == Success(true) then
        var name := match FromBytes(data) case Success(FileName(n)) => n case _ => None;
        var (sess, acks) := SendAck(Session(false, 0, name, now), now);
        Reply(t[addr := sess], acks, [])
      else
        Reply(t, [], [])
    else
      var sess := t[addr];
      match CheckType(Some("initrq"), data)
      case Failure(_) => Reply(t, [], [])
      case Success(isInitrq) =>
        if isInitrq then
          var (sess', acks) := SendAck(sess, now);
          Reply(t[addr := sess'], acks, [])
        else if CheckType(Some("data"), data) == Success(true) then
          var (block, content) := match FromBytes(data) case Success(Block(b, c)) => (b, c) case _ => (0, []);
          var (sess1, acks, written) :=
            if sess.blockNumber == block as int - 1 then
              (sess.(blockNumber := sess.blockNumber + 1, lastActive := now), [], [content])
            else if sess.blockNumber == block then
              var (s', a) := SendAck(sess, now);
              (s', a, [])
            else
              (sess, [], []);
          var sess2 := if |data| < MaxPacketSize then Disconnect(sess1) else sess1;
          Reply(t[addr := sess2], acks, written)
        else
          Reply(t, [], [])
  }

  /** `stop`: the forced purge of every session. */
  function Stop(table: Table): (r: Table)
    ensures r == map[]
  {
    CleanUp(table, 0, true)
  }

  // ---------------------------------------------------------------------------
  // Properties
  // ---------------------------------------------------------------------------

  /** A datagram from a new address creates a session exactly when it is an INITRQ of 4 to 512 bytes. */
  lemma NewSessionOnlyFromInitrq(table: Table, data: Bytes, addr: Address, now: int)
    requires addr !in CleanUp(table, now, false)
    ensures var r := Handle(table, data, addr, now);
      && (addr in r.table <==> Prefix(data) == [0, 1] && MinPacketSize <= |data| <= MaxPacketSize)
      && (addr in r.table ==>
            && r.table == CleanUp(table, now, false)[addr := Session(false, 0, ParseInitrq(data), now)]
            && r.sent == [AckWire(0)])
      && (addr !in r.table ==> r.table == CleanUp(table, now, false) && r.sent == [])
      && r.written == []
  {
    assert Upper("initrq") == "INITRQ";
    CheckTypeMeaning("initrq", data);
  }

  /** A repeated INITRQ from a known address re-sends the ACK of the current block and only refreshes the session. */
  lemma RepeatedInitrqReacks(table: Table, data: Bytes, addr: Address, now: int)
    requires addr in CleanUp(table, now, false)
    requires Prefix(data) == [0, 1]
    ensures var sess := table[addr];
      var r := Handle(table, data, addr, now);
      && r.table == CleanUp(table, now, false)[addr := sess.(lastActive := now)]
      && r.sent == (if sess.blockNumber < 0x1_0000 then [AckWire(sess.blockNumber)] else [])
      && r.written == []
  {
    assert Upper("initrq") == "INITRQ";
  }

  /**
   DATA from a known address, by block number: one past the expected block is
   written once and accepted without an ACK; the expected block is
   acknowledged again and not written; any other block is ignored. A packet
   shorter than MAX_PACKET_SIZE completes the session in every case.
   */
  lemma DataHandling(table: Table, data: Bytes, addr: Address, now: int)
    requires addr in CleanUp(table, now, false)
    requires Prefix(data) == [0, 2]
    ensures var sess := table[addr];
      var (block, content) := ParseData(data);
      var r := Handle(table, data, addr, now);
      var complete := |data| < MaxPacketSize;
      && addr in r.table
      && (forall a :: a != addr ==> (a in r.table <==> a in CleanUp(table, now, false)))
      && (forall a :: a != addr && a in r.table ==> r.table[a] == table[a])
      && r.table[addr].transferComplete == complete
      && (block == sess.blockNumber + 1 ==>
            && r.written == [content] && r.sent == []
            && r.table[addr] == sess.(blockNumber := block, lastActive := now, transferComplete := complete))
      && (block == sess.blockNumber ==>
            && r.written == []
            && r.sent == (if block < 0x1_0000 then [AckWire(block)] else [])
            && r.table[addr] == sess.(lastActive := now, transferComplete := complete))
      && (block != sess.blockNumber + 1 && block != sess.blockNumber ==>
            && r.written == [] && r.sent == []
            && r.table[addr] == sess.(transferComplete := complete))
  {
    assert Upper("initrq") == "INITRQ" && Upper("data") == "DATA";
    assert CheckType(Some("initrq"), data) == Success(false);
    assert CheckType(Some("data"), data) == Success(true);
  }

  /**
   Anything but INITRQ or DATA from a known address (ACK, ERR, or a prefix
   that is no opcode, for which `check_type` raises) changes nothing beyond
   the clean-up: the sender's own session is left as it was.
   */
  lemma OtherPacketsDropped(table: Table, data: Bytes, addr: Address, now: int)
    requires addr in CleanUp(table, now, false)
    requires Prefix(data) != [0, 1] && Prefix(data) != [0, 2]
    ensures Handle(table, data, addr, now) == Reply(CleanUp(table, now, false), [], [])
  {
    assert Upper("initrq") == "INITRQ" && Upper("data") == "DATA";
  }

  /** Handling a datagram touches no session but its sender's, beyond the clean-up. */
  lemma OtherSessionsUntouched(table: Table, data: Bytes, addr: Address, now: int, other: Address)
    requires other != addr
    ensures var r := Handle(table, data, addr, now);
      && (other in r.table <==> other in table && !Expired(table[other], now))
      && (other in r.table ==> r.table[other] == table[other])
  {
  }

  /**
   Delivering the same DATA block twice in a row, while the session expects
   it, writes its payload exactly once, whatever happens in between to the
   session. If the session survives, the second delivery only re-sends the
   ACK; if it was dropped (after a short last block, or idle past
   CONN_TIMEOUT), the second delivery comes from an unknown address and gets
   no reply.
   */
  lemma DuplicateWrittenOnce(table: Table, data: Bytes, addr: Address, now: int, later: int)
    requires addr in CleanUp(table, now, false)
    requires Prefix(data) == [0, 2]
    requires ParseData(data).0 == table[addr].blockNumber + 1
    ensures var r1 := Handle(table, data, addr, now);
      var r2 := Handle(r1.table, data, addr, later);
      && r1.written + r2.written == [ParseData(data).1]
      && (addr in CleanUp(r1.table, later, false) ==>
            r2.sent == (if ParseData(data).0 < 0x1_0000 then [AckWire(ParseData(data).0)] else []))
      && (addr !in CleanUp(r1.table, later, false) ==> r2.sent == [])
  {
    DataHandling(table, data, addr, now);
    var r1 := Handle(table, data, addr, now);
    if addr in CleanUp(r1.table, later, false) {
      DataHandling(r1.table, data, addr, later);
    } else {
      assert Prefix(data) != [0, 1];
      NewSessionOnlyFromInitrq(r1.table, data, addr, later);
    }
  }

  /** A session idle for more than CONN_TIMEOUT is gone after the next datagram from anyone else, complete or not. */
  lemma IdleSessionEvicted(table: Table, data: Bytes, addr: Address, now: int, idle: Address)
    requires idle != addr && idle in table
    requires Inactive(table[idle], now) > ConnTimeout
    ensures idle !in Handle(table, data, addr, now).table
  {
    OtherSessionsUntouched(table, data, addr, now, idle);
  }

  /**
   A disconnected session is dropped by the very next clean-up, whenever it
   runs, and disconnecting one session changes which others are dropped in
   no way.
   */
  lemma DisconnectedDropped(table: Table, addr: Address, now: int)
    requires addr in table
    ensures var t := table[addr := Disconnect(table[addr])];
      && addr !in CleanUp(t, now, false)
      && forall a :: a != addr ==> (a in CleanUp(t, now, false) <==> a in CleanUp(table, now, false))
  {
  }

  /**
   A DATA packet shorter than MAX_PACKET_SIZE ends its sender's session: the
   clean-up that starts the handling of the next datagram, from anyone and at
   any time, drops it.
   */
  lemma ShortDataEndsSession(table: Table, data: Bytes, addr: Address, now: int, later: int)
    requires addr in CleanUp(table, now, false)
    requires Prefix(data) == [0, 2] && |data| < MaxPacketSize
    ensures addr in Handle(table, data, addr, now).table
    ensures addr !in CleanUp(Handle(table, data, addr, now).table, later, false)
  {
    DataHandling(table, data, addr, now);
  }

  /** Clean-up is idempotent: a second pass at the same time removes nothing more. */
  lemma CleanUpIdempotent(table: Table, now: int)
    ensures CleanUp(CleanUp(table, now, false), now, false) == CleanUp(table, now, false)
  {
  }

  /** A chunk is written only for a DATA packet one past the session's block, and that block becomes the session's. */
  lemma WritesOnlyNextBlock(table: Table, data: Bytes, addr: Address, now: int)
    requires |Handle(table, data, addr, now).written| > 0
    ensures Prefix(data) == [0, 2] && addr in CleanUp(table, now, false)
    ensures var r := Handle(table, data, addr, now);
      && ParseData(data).0 == table[addr].blockNumber + 1
      && r.written == [ParseData(data).1]
      && r.table[addr].blockNumber == ParseData(data).0
  {
    var t := CleanUp(table, now, false);
    if addr !in t {
      NewSessionOnlyFromInitrq(table, data, addr, now);
    } else {
      CheckTypeMeaning("initrq", data);
      CheckTypeMeaning("data", data);
      assert Upper("initrq") == "INITRQ" && Upper("data") == "DATA";
      if Prefix(data) == [0, 2] {
        DataHandling(table, data, addr, now);
      } else if Prefix(data) == [0, 1] {
        RepeatedInitrqReacks(table, data, addr, now);
      } else {
        assert false;
      }
    }
  }
}

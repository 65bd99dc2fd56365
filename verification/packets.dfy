/**
 The four packet classes of pygftlib/packets.py. Each builds its wire form
 from keyword arguments and parses the fields back out of a byte string;
 the wire form always begins with the class's opcode packed as 2 big-endian
 bytes:

   INITRQ  00 01 | file name (ASCII) | 00
   DATA    00 02 | block number (2)  | payload
   ACK     00 03 | block number (2)
   ERR     00 04 | error code (2)    | message (ASCII) | 00
 */
module Packets {
  import opened Wrappers
  import opened Errors
  import opened Helpers

  datatype PacketKind = INITRQ | DATA | ACK | ERR

  /** The `op_code` attribute each packet class sets in its constructor. */
  function OpCode(k: PacketKind): (r: nat)
    ensures 1 <= r <= 4
  {
    match k
    case INITRQ => 1
    case DATA => 2
    case ACK => 3
    case ERR => 4
  }

  /** The keyword arguments of a `build_packet` call; an argument not passed is None. */
  datatype Kwargs = Kwargs(fileName: Option<Value>, blockNo: Option<Value>, data: Option<Value>, errCode: Option<Value>)

  const NoArgs := Kwargs(None, None, None, None)

  /** `kwargs[name]`: a missing keyword is a KeyError. */
  function Arg(v: Option<Value>): (r: Result<Value, Error>)
  {
    match v
    case Some(x) => Success(x)
    case None => Failure(KeyError)
  }

  // ---------------------------------------------------------------------------
  // INITRQ
  // ---------------------------------------------------------------------------

  function BuildInitrq(kw: Kwargs): (r: Result<Bytes, Error>)
  {
    var name :- Arg(kw.fileName);
    var op :- PackShortInt(Int(OpCode(INITRQ)));
    var nameBytes :- StrToBytes(name);
    Success(op + nameBytes + [0])
  }

  /**
   The file name is the ASCII text strictly between offset 2 and the last byte
   (`data[2:-1]`); None is the name left unset when decoding fails.
   */
  function ParseInitrq(data: Bytes): Option<string>
  {
    AsciiDecode(Slice(data, 2, |data| - 1))
  }

  // ---------------------------------------------------------------------------
  // DATA
  // ---------------------------------------------------------------------------

  function BuildData(kw: Kwargs): (r: Result<Bytes, Error>)
  {
    var payload :- Arg(kw.data);
    var block :- Arg(kw.blockNo);
    var op :- PackShortInt(Int(OpCode(DATA)));
    var blockBytes :- PackShortInt(block);
    var payloadBytes :- StrToBytes(payload);
    Success(op + blockBytes + payloadBytes)
  }

  /** The block number is read from `data[2:4]` and the payload is `data[4:]`, whatever the length. */
  function ParseData(data: Bytes): (nat, Bytes)
  {
    (UnpackShortInt(Slice(data, 2, 4)), Drop(data, 4))
  }

  // ---------------------------------------------------------------------------
  // ACK
  // ---------------------------------------------------------------------------

  function BuildAck(kw: Kwargs): (r: Result<Bytes, Error>)
  {
    var block :- Arg(kw.blockNo);
    var op :- PackShortInt(Int(OpCode(ACK)));
    var blockBytes :- PackShortInt(block);
    Success(op + blockBytes)
  }

  /** The block number is everything after the opcode (`data[2:]`), read big-endian. */
  function ParseAck(data: Bytes): nat
  {
    UnpackShortInt(Drop(data, 2))
  }

  // ---------------------------------------------------------------------------
  // ERR
  // ---------------------------------------------------------------------------

  /** A `b"..."` literal: one byte per character, its code (every literal here is ASCII). */
  function ByteString(s: string): (r: Bytes)
    ensures |r| == |s|
  {
    seq(|s|, i requires 0 <= i < |s| => s[i] as int % 0x100)
  }

  /** `ERRPacket.errors`, the fixed table of error codes 0 to 6 and their messages. */
  function ErrorMessage(code: int): (r: Option<Bytes>)
    ensures r.Some? <==> 0 <= code <= 6
    ensures r.Some? ==> |r.value| > 0
  {
    if code == 0 then Some(ByteString("Not defined, see error message (if any)"))
    else if code == 1 then Some(ByteString("File Not Found"))
    else if code == 2 then Some(ByteString("Access violation"))
    else if code == 3 then Some(ByteString("Disk full or allocation exceeded."))
    else if code == 4 then Some(ByteString("Illegal operation."))
    else if code == 5 then Some(ByteString("Unknown transfer ID."))
    else if code == 6 then Some(ByteString("File already exists."))
    else None
  }

  /** `self.errors[key]`: only the int keys 0 to 6 are present. */
  function LookupError(key: Value): Result<Bytes, Error>
  {
    if key.Int? && ErrorMessage(key.i).Some? then Success(ErrorMessage(key.i).value) else Failure(KeyError)
  }

  function BuildErr(kw: Kwargs): (r: Result<Bytes, Error>)
  {
    var code :- Arg(kw.errCode);
    var op :- PackShortInt(Int(OpCode(ERR)));
    var codeBytes :- PackShortInt(code);
    var msg :- LookupError(code);
    var msgBytes :- StrToBytes(Raw(msg));
    Success(op + codeBytes + msgBytes + [0])
  }

  /** The code is read from `data[2:4]`; the message comes from the table, not from the wire. */
  function ParseErr(data: Bytes): (r: Result<(nat, Bytes), Error>)
  {
    var code := UnpackShortInt(Slice(data, 2, 4));
    var msg :- LookupError(Int(code));
    Success((code, msg))
  }

  // ---------------------------------------------------------------------------
  // The wire layouts, as the class docstrings draw them
  // ---------------------------------------------------------------------------

  function InitrqWire(name: string): Bytes
    requires IsAscii(name)
  {
    [0, 1] + AsciiEncode(name) + [0]
  }

  function DataWire(block: nat, payload: Bytes): Bytes
    requires block < 0x1_0000
  {
    [0, 2] + Be16(block) + payload
  }

  function AckWire(block: nat): Bytes
    requires block < 0x1_0000
  {
    [0, 3] + Be16(block)
  }

  // ---------------------------------------------------------------------------
  // Properties
  // ---------------------------------------------------------------------------

  /** INITRQ is `00 01`, the ASCII name and a zero byte; a name that is not ASCII raises. */
  lemma BuildInitrqLayout(name: string)
    ensures BuildInitrq(NoArgs.(fileName := Some(Str(name)))).Success? <==> IsAscii(name)
    ensures IsAscii(name) ==>
      BuildInitrq(NoArgs.(fileName := Some(Str(name)))) == Success(InitrqWire(name))
  {
  }

  /** A built INITRQ is 3 bytes longer than its name and parses back to the name. */
  lemma InitrqRoundTrip(name: string)
    requires IsAscii(name)
    ensures var r := BuildInitrq(NoArgs.(fileName := Some(Str(name))));
      r.Success? && |r.value| == |name| + 3 && ParseInitrq(r.value) == Some(name)
  {
    var b := [0, 1] + AsciiEncode(name) + [0];
    assert Slice(b, 2, |b| - 1) == AsciiEncode(name);
    AsciiRoundTrip(name);
  }

  /** DATA is `00 02`, the 2-byte block number and the payload, so 4 bytes longer than the payload. */
  lemma BuildDataLayout(block: int, payload: Bytes)
    requires 0 <= block < 0x1_0000
    ensures BuildData(NoArgs.(blockNo := Some(Int(block)), data := Some(Raw(payload))))
         == Success(DataWire(block, payload))
  {
  }

  /** A built DATA packet parses back to its block number and payload. */
  lemma DataRoundTrip(block: int, payload: Bytes)
    requires 0 <= block < 0x1_0000
    ensures var r := BuildData(NoArgs.(blockNo := Some(Int(block)), data := Some(Raw(payload))));
      r.Success? && |r.value| == 4 + |payload| && ParseData(r.value) == (block, payload)
  {
    var b := [0, 2] + Be16(block) + payload;
    assert Slice(b, 2, 4) == Be16(block);
    assert Drop(b, 4) == payload;
  }

  /** ACK is exactly 4 bytes, `00 03` and the 2-byte block number, and parses back to the number. */
  lemma AckRoundTrip(block: int)
    requires 0 <= block < 0x1_0000
    ensures BuildAck(NoArgs.(blockNo := Some(Int(block)))) == Success(AckWire(block))
    ensures |AckWire(block)| == 4 && ParseAck(AckWire(block)) == block
  {
    assert Drop([0, 3] + Be16(block), 2) == Be16(block);
  }

  /** ERR can be built exactly for the codes 0 to 6: `00 04`, the code, the table's message and a zero byte. */
  lemma BuildErrLayout(code: int)
    ensures BuildErr(NoArgs.(errCode := Some(Int(code)))).Success? <==> 0 <= code <= 6
    ensures 0 <= code <= 6 ==>
      BuildErr(NoArgs.(errCode := Some(Int(code)))) == Success([0, 4] + Be16(code) + ErrorMessage(code).value + [0])
  {
  }

  /** Parsing a built ERR packet gives back its code and the table's message. */
  lemma ErrRoundTrip(code: int)
    requires 0 <= code <= 6
    ensures var r := BuildErr(NoArgs.(errCode := Some(Int(code))));
      r.Success? && ParseErr(r.value) == Success((code, ErrorMessage(code).value))
  {
    var b := [0, 4] + Be16(code) + ErrorMessage(code).value + [0];
    assert Slice(b, 2, 4) == Be16(code);
  }

  /** Parsing ERR raises exactly when the code on the wire is not in the table; a message on the wire is ignored. */
  lemma ParseErrUnknownCode(data: Bytes)
    ensures ParseErr(data).Failure? <==> UnpackShortInt(Slice(data, 2, 4)) > 6
    ensures ParseErr(data).Failure? ==> ParseErr(data).error == KeyError
  {
  }

  /** Every packet a class builds starts with that class's opcode as 2 big-endian bytes. */
  lemma BuiltPacketStartsWithOpCode(k: PacketKind, kw: Kwargs)
    ensures var r := match k
                     case INITRQ => BuildInitrq(kw)
                     case DATA => BuildData(kw)
                     case ACK => BuildAck(kw)
                     case ERR => BuildErr(kw);
      r.Success? ==> |r.value| >= 2 && r.value[..2] == Be16(OpCode(k)) == [0, OpCode(k)]
  {
  }

  /** The literal ACK vector: block 23 is `00 03 00 17`. */
  lemma AckVector()
    ensures BuildAck(NoArgs.(blockNo := Some(Int(23)))) == Success([0x00, 0x03, 0x00, 0x17])
    ensures ParseAck([0x00, 0x03, 0x00, 0x17]) == 23
  {
    AckRoundTrip(23);
    var wire: Bytes := [0x00, 0x03, 0x00, 0x17];
    assert Be16(23) == [0x00, 0x17];
    assert [0x00, 0x03] + Be16(23) == wire;
  }

  /** The literal DATA vector: block 24 with payload 'test' is `00 02 00 18 't' 'e' 's' 't'`. */
  lemma DataVector()
    ensures BuildData(NoArgs.(blockNo := Some(Int(24)), data := Some(Str("test"))))
         == Success([0x00, 0x02, 0x00, 0x18, 0x74, 0x65, 0x73, 0x74])
    ensures ParseData([0x00, 0x02, 0x00, 0x18, 0x74, 0x65, 0x73, 0x74]) == (24, [0x74, 0x65, 0x73, 0x74])
  {
    var test: Bytes := [0x74, 0x65, 0x73, 0x74];
    var wire: Bytes := [0x00, 0x02, 0x00, 0x18, 0x74, 0x65, 0x73, 0x74];
    assert [0x00, 0x02] + Be16(24) + test == wire by {
      assert Be16(24) == [0x00, 0x18];
    }
    assert BuildData(NoArgs.(blockNo := Some(Int(24)), data := Some(Str("test")))) == Success(wire) by {
      assert AsciiEncode("test") == test;
    }
    DataRoundTrip(24, test);
  }

  lemma TestDummyAscii()
    ensures IsAscii("test.dummy")
    ensures AsciiEncode("test.dummy") == [0x74, 0x65, 0x73, 0x74, 0x2e, 0x64, 0x75, 0x6d, 0x6d, 0x79]
  {
  }

  /** The literal INITRQ vector: 'test.dummy' is `00 01`, its ten ASCII bytes and `00`. */
  lemma InitrqVector()
    ensures BuildInitrq(NoArgs.(fileName := Some(Str("test.dummy"))))
         == Success([0x00, 0x01, 0x74, 0x65, 0x73, 0x74, 0x2e, 0x64, 0x75, 0x6d, 0x6d, 0x79, 0x00])
    ensures ParseInitrq([0x00, 0x01, 0x74, 0x65, 0x73, 0x74, 0x2e, 0x64, 0x75, 0x6d, 0x6d, 0x79, 0x00])
         == Some("test.dummy")
  {
    var name: Bytes := [0x74, 0x65, 0x73, 0x74, 0x2e, 0x64, 0x75, 0x6d, 0x6d, 0x79];
    var wire: Bytes := [0x00, 0x01, 0x74, 0x65, 0x73, 0x74, 0x2e, 0x64, 0x75, 0x6d, 0x6d, 0x79, 0x00];
    assert IsAscii("test.dummy") && InitrqWire("test.dummy") == wire by {
      TestDummyAscii();
      assert [0x00, 0x01] + name + [0x00] == wire;
    }
    assert BuildInitrq(NoArgs.(fileName := Some(Str("test.dummy")))) == Success(wire) by {
      BuildInitrqLayout("test.dummy");
    }
    InitrqRoundTrip("test.dummy");
  }
}

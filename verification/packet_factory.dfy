/**
 The packet factory of pygftlib/packet_factory.py: the opcode table, decoding
 of any datagram by its 2-byte prefix, encoding by packet-type name, and the
 type and size checks the protocol applies before decoding.

 Packet types are named by strings compared after `upper()`, so 'ack' and
 'ACK' are the same type; a type of None is `None` here.
 */
module PacketFactory {
  import opened Wrappers
  import opened Errors
  import opened Constants
  import opened Helpers
  import opened Packets

  // ---------------------------------------------------------------------------
  // The opcode table
  // ---------------------------------------------------------------------------

  /** The name half of `OP_CODES`: type name to 2-byte prefix. */
  const NameToPrefix: map<string, Bytes> :=
    map["INITRQ" := [0, 1], "DATA" := [0, 2], "ACK" := [0, 3], "ERR" := [0, 4]]

  /** The prefix half of `OP_CODES`: 2-byte prefix to type name. */
  const PrefixToName: map<Bytes, string> :=
    map[[0, 1] := "INITRQ", [0, 2] := "DATA", [0, 3] := "ACK", [0, 4] := "ERR"]

  /** The key of `PACKET_TYPES` under which each packet class is registered. */
  function Name(k: PacketKind): string
  {
    match k
    case INITRQ => "INITRQ"
    case DATA => "DATA"
    case ACK => "ACK"
    case ERR => "ERR"
  }

  /** The opcode prefix at the head of a datagram, `data[:2]`. */
  function Prefix(data: Bytes): Bytes
  {
    Take(data, 2)
  }

  /** True when `data[:2]` is one of the four opcodes. */
  predicate KnownPrefix(data: Bytes)
  {
    Prefix(data) in PrefixToName
  }

  // ---------------------------------------------------------------------------
  // Type names
  // ---------------------------------------------------------------------------

  function UpperChar(c: char): char
  {
    if 'a' <= c <= 'z' then (c as int - 32) as char else c
  }

  /** `str.upper()` restricted to ASCII letters. */
  function Upper(s: string): (r: string)
    ensures |r| == |s|
    ensures forall i :: 0 <= i < |s| ==> r[i] == UpperChar(s[i])
  {
    seq(|s|, i requires 0 <= i < |s| => UpperChar(s[i]))
  }

  // ---------------------------------------------------------------------------
  // Decoding
  // ---------------------------------------------------------------------------

  /** What `from_bytes` returns for each packet type. */
  datatype Decoded =
    | FileName(name: Option<string>)          // INITRQ: the file name
    | Block(blockNo: nat, content: Bytes)     // DATA: (block_no, content)
    | AckNo(blockNo: nat)                     // ACK: block_no
    | ErrInfo(code: nat, msg: Bytes)          // ERR: (err_code, err_msg)

  /** `from_bytes`: dispatch on the 2-byte prefix to the matching class's parser. */
  function FromBytes(data: Bytes): (r: Result<Decoded, Error>)
    ensures r == Failure(MalformedPacket) <==> !KnownPrefix(data)
    ensures Prefix(data) == [0, 1] ==> r == Success(FileName(ParseInitrq(data)))
    ensures Prefix(data) == [0, 2] ==> r == Success(Block(ParseData(data).0, ParseData(data).1))
    ensures Prefix(data) == [0, 3] ==> r == Success(AckNo(ParseAck(data)))
    ensures Prefix(data) == [0, 4] ==>
      r == (match ParseErr(data)
            case Success(e) => Success(ErrInfo(e.0, e.1))
            case Failure(x) => Failure(x))
  {
    var op := Prefix(data);
    if op !in PrefixToName then Failure(MalformedPacket)
    else if op == [0, 1] then Success(FileName(ParseInitrq(data)))
    else if op == [0, 2] then Success(Block(ParseData(data).0, ParseData(data).1))
    else if op == [0, 3] then Success(AckNo(ParseAck(data)))
    else
      var e :- ParseErr(data);
      Success(ErrInfo(e.0, e.1))
  }

  // ---------------------------------------------------------------------------
  // Encoding and checks
  // ---------------------------------------------------------------------------

  /** `to_bytes`: only ack, initrq and data can be built; err and every other name are not implemented. */
  function ToBytes(packetType: Option<string>, kw: Kwargs): (r: Result<Bytes, Error>)
    ensures packetType.None? ==> r == Failure(ValueError)
    ensures packetType.Some? && Upper(packetType.value) !in {"ACK", "INITRQ", "DATA"} ==>
      r == Failure(NotImplementedError)
  {
    match packetType
    case None => Failure(ValueError)
    case Some(t) =>
      var u := Upper(t);
      if u == "ACK" then BuildAck(kw)
      else if u == "INITRQ" then BuildInitrq(kw)
      else if u == "DATA" then BuildData(kw)
      else Failure(NotImplementedError)
  }

  /** `check_type`: does the prefix name the given type? An unknown prefix fails the table lookup. */
  function CheckType(packetType: Option<string>, data: Bytes): (r: Result<bool, Error>)
  {
    match packetType
    case None => Failure(ValueError)
    case Some(t) =>
      if Prefix(data) in PrefixToName then Success(Upper(t) == PrefixToName[Prefix(data)])
      else Failure(KeyError)
  }

  /**
   `is_valid`: the size bounds of a packet type. The prefix must be a known
   opcode but is not compared with the type.
   */
  function IsValid(packetType: Option<string>, data: Bytes): (r: Result<bool, Error>)
  {
    if !KnownPrefix(data) then Failure(MalformedPacket)
    else match packetType
      case None => Failure(ValueError)
      case Some(t) =>
        var u := Upper(t);
        if u == "INITRQ" then Success(MinPacketSize <= |data| <= MaxPacketSize)
        else if u == "DATA" then Success(2 <= |data| <= MaxPacketSize)
        else if u == "ACK" then Success(|data| == 4)
        else Failure(NotImplementedError)
  }

  // ---------------------------------------------------------------------------
  // Properties
  // ---------------------------------------------------------------------------

  /** `OP_CODES` is a bijection between the four names and the four prefixes. */
  lemma OpCodesBijective()
    ensures forall n :: n in NameToPrefix ==> NameToPrefix[n] in PrefixToName && PrefixToName[NameToPrefix[n]] == n
    ensures forall p :: p in PrefixToName ==> PrefixToName[p] in NameToPrefix && NameToPrefix[PrefixToName[p]] == p
  {
    assert forall n :: n in NameToPrefix ==> n == "INITRQ" || n == "DATA" || n == "ACK" || n == "ERR";
    assert forall p :: p in PrefixToName ==> p == [0, 1] || p == [0, 2] || p == [0, 3] || p == [0, 4];
    assert NameToPrefix["INITRQ"] == [0, 1] && NameToPrefix["DATA"] == [0, 2];
    assert NameToPrefix["ACK"] == [0, 3] && NameToPrefix["ERR"] == [0, 4];
    assert PrefixToName[[0, 1]] == "INITRQ" && PrefixToName[[0, 2]] == "DATA";
    assert PrefixToName[[0, 3]] == "ACK" && PrefixToName[[0, 4]] == "ERR";
  }

  /** The table agrees with the classes: each class's name maps to its own packed opcode and back. */
  lemma OpCodesMatchClasses(k: PacketKind)
    ensures Name(k) in NameToPrefix && NameToPrefix[Name(k)] == Be16(OpCode(k))
    ensures Be16(OpCode(k)) in PrefixToName && PrefixToName[Be16(OpCode(k))] == Name(k)
  {
  }

  /** `from_bytes` raises MalformedPacket exactly for a datagram whose first two bytes are not an opcode. */
  lemma FromBytesRejectsUnknownPrefix(data: Bytes)
    ensures FromBytes(data) == Failure(MalformedPacket) <==>
      |data| < 2 || data[0] != 0 || data[1] !in {1, 2, 3, 4}
  {
    if |data| >= 2 {
      assert Prefix(data) == [data[0], data[1]];
    }
  }

  /**
   Upper-casing leaves no lower-case ASCII letter, turns each one into its
   capital, and keeps every other character; so it changes a string exactly
   when the string has a lower-case letter.
   */
  lemma UpperMeaning(s: string)
    ensures |Upper(s)| == |s|
    ensures forall i :: 0 <= i < |s| ==> !('a' <= Upper(s)[i] <= 'z')
    ensures forall i :: 0 <= i < |s| && 'a' <= s[i] <= 'z' ==> Upper(s)[i] as int == s[i] as int - 32
    ensures forall i :: 0 <= i < |s| && !('a' <= s[i] <= 'z') ==> Upper(s)[i] == s[i]
    ensures Upper(s) == s <==> forall i :: 0 <= i < |s| ==> !('a' <= s[i] <= 'z')
  {
    if Upper(s) != s {
      assert exists i :: 0 <= i < |s| && Upper(s)[i] != s[i];
    }
  }

  /** Upper-casing is idempotent, so a type name and its upper-case form select the same packet type. */
  lemma UpperIdempotent(s: string)
    ensures Upper(Upper(s)) == Upper(s)
  {
  }

  /** `to_bytes` ignores the case of the type name. */
  lemma ToBytesCaseInsensitive(t: string, kw: Kwargs)
    ensures ToBytes(Some(t), kw) == ToBytes(Some(Upper(t)), kw)
  {
    UpperIdempotent(t);
  }

  /** Decoding an encoded ACK gives its block number back. */
  lemma AckFactoryRoundTrip(n: int)
    requires 0 <= n < 0x1_0000
    ensures var r := ToBytes(Some("ack"), NoArgs.(blockNo := Some(Int(n))));
      r.Success? && |r.value| == 4 && FromBytes(r.value) == Success(AckNo(n))
  {
    assert Upper("ack") == "ACK";
    AckRoundTrip(n);
  }

  /** Decoding an encoded DATA packet gives its block number and payload back. */
  lemma DataFactoryRoundTrip(n: int, payload: Bytes)
    requires 0 <= n < 0x1_0000
    ensures var r := ToBytes(Some("data"), NoArgs.(blockNo := Some(Int(n)), data := Some(Raw(payload))));
      r.Success? && |r.value| == 4 + |payload| && FromBytes(r.value) == Success(Block(n, payload))
  {
    assert Upper("data") == "DATA";
    DataRoundTrip(n, payload);
    BuildDataLayout(n, payload);
  }

  /** Decoding an encoded INITRQ gives its file name back. */
  lemma InitrqFactoryRoundTrip(name: string)
    requires IsAscii(name)
    ensures var r := ToBytes(Some("initrq"), NoArgs.(fileName := Some(Str(name))));
      r.Success? && |r.value| == |name| + 3 && FromBytes(r.value) == Success(FileName(Some(name)))
  {
    assert Upper("initrq") == "INITRQ";
    InitrqRoundTrip(name);
    BuildInitrqLayout(name);
  }

  /** What `to_bytes` builds is of the type it was asked for, as `check_type` sees it. */
  lemma ToBytesChecksAsItsType(t: string, kw: Kwargs)
    requires ToBytes(Some(t), kw).Success?
    ensures Upper(t) in {"ACK", "INITRQ", "DATA"}
    ensures CheckType(Some(t), ToBytes(Some(t), kw).value) == Success(true)
  {
    var u := Upper(t);
    var k := if u == "ACK" then ACK else if u == "INITRQ" then INITRQ else DATA;
    BuiltPacketStartsWithOpCode(k, kw);
    OpCodesMatchClasses(k);
  }

  /** `to_bytes` refuses err in any letter case, since ERR packets are never transmitted. */
  lemma ToBytesRefusesErr(t: string, kw: Kwargs)
    requires Upper(t) == "ERR"
    ensures ToBytes(Some(t), kw) == Failure(NotImplementedError)
  {
  }

  /** `check_type(t, d)` holds iff the table names `d`'s prefix as `t` upper-cased; an unknown prefix is a KeyError. */
  lemma CheckTypeMeaning(t: string, data: Bytes)
    ensures KnownPrefix(data) ==>
      (CheckType(Some(t), data) == Success(true) <==> Upper(t) in NameToPrefix && NameToPrefix[Upper(t)] == Prefix(data))
    ensures !KnownPrefix(data) ==> CheckType(Some(t), data) == Failure(KeyError)
  {
    OpCodesBijective();
  }

  /** With a known prefix, `is_valid` depends only on the type and the length, never on the other bytes. */
  lemma IsValidDependsOnLength(t: string, a: Bytes, b: Bytes)
    requires KnownPrefix(a) && KnownPrefix(b) && |a| == |b|
    ensures IsValid(Some(t), a) == IsValid(Some(t), b)
  {
  }

  /** `is_valid` raises MalformedPacket before anything else for an unknown prefix, and NotImplementedError for err. */
  lemma IsValidErrors(t: Option<string>, data: Bytes)
    ensures !KnownPrefix(data) ==> IsValid(t, data) == Failure(MalformedPacket)
    ensures KnownPrefix(data) && t.Some? && Upper(t.value) == "ERR" ==> IsValid(t, data) == Failure(NotImplementedError)
    ensures IsValid(t, data).Success? <==>
      KnownPrefix(data) && t.Some? && Upper(t.value) in {"INITRQ", "DATA", "ACK"}
  {
  }

  /** An ACK-typed check fails every length but 4; an INITRQ-typed check fails anything under 4 bytes. */
  lemma IsValidBounds(data: Bytes)
    requires KnownPrefix(data)
    ensures IsValid(Some("ack"), data) == Success(|data| == 4)
    ensures IsValid(Some("initrq"), data) == Success(4 <= |data| <= 512)
    ensures IsValid(Some("data"), data) == Success(2 <= |data| <= 512)
  {
    assert Upper("ack") == "ACK";
    assert Upper("initrq") == "INITRQ";
    assert Upper("data") == "DATA";
  }
}

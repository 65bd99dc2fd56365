# pygftlib in Dafny

A model of the core of pygftlib. pygftlib is a stop-and-wait file-transfer
protocol over UDP: a Sender pushes one file to a Receiver in DATA blocks of
508 bytes, and each block is acknowledged before the next one is read.

The model covers:

- the byte helpers of `gftlib/helpers.py`;
- the four packet classes of `pygftlib/packets.py` (INITRQ, DATA, ACK, ERR);
- the opcode tables and the `PacketFactory` of `pygftlib/packet_factory.py`
  (`from_bytes`, `to_bytes`, `check_type`, `is_valid`);
- the `Sender` and `Receiver` state machines of `pygftlib/protocol.py`;
- `FileReader.read_chunk` of `gftlib/file_io.py`, the sender's source of
  blocks.

A last module composes one Sender and one Receiver over a network that
loses nothing. It proves that the file arrives whole, as the repository's
functional test expects.

Modules, one per source file:

| module | models |
|---|---|
| `Wrappers` | `Option` and `Result` |
| `Errors` | the exceptions a call can raise (`MalformedPacket`, `KeyError`, `OverflowError`, ...) |
| `Constants` | the constants of `pygftlib/__init__.py` |
| `Helpers` | `pack_short_int`, `unpack_short_int`, `str_to_bytes`, Python slicing, ASCII encoding |
| `Packets` | the four packet classes' `build_packet` and `parse_packet` |
| `PacketFactory` | `OP_CODES`, `PACKET_TYPES` and the factory's class methods |
| `FileSource` | `FileReader.read_chunk` over the file's contents |
| `Sender` | `Sender`: `__init__`, `_check_time`, `handle_ack`, `send_packet`, `_add_to_send_queue`, one loop iteration |
| `Receiver` | `Receiver`: `handle`, `send_ack`, `disconnect_client`, `_clean_up`, `stop` |
| `Transfer` | the `upload` loop against one receiver over a lossless network |

How the Python is rendered:

- Python's dynamic arguments are a `Value` (`Int`, `Str` or `Raw` bytes), so
  "bytes pass through unchanged" stays expressible. The `**kwargs` of
  `build_packet` are a record of optional fields, and a missing one is a
  `KeyError`.
- Every exception is a `Failure`.
- An exception that escapes a gevent greenlet or `DatagramServer.handle`
  ends that call and keeps the state as it was at the raise. For example,
  `read_chunk` has consumed the file before `to_bytes` overflows.
- Time is whole seconds, passed in as `now`. The socket read of `handle_ack`
  is an `Incoming` parameter: a datagram, or the one-second timeout.
  `recvfrom(MIN_PACKET_SIZE)` keeps the first 4 bytes of a longer datagram,
  as a UDP socket does on Linux (some other platforms raise an error
  instead, which is not modelled).
- One sender iteration is `_check_time`, then `send_packet`, then the read.
  When a datagram is already waiting as the iteration starts, the read
  returns at once, so the ACK is handled before `send_packet`
  (`Sender.StepWaiting`).

Behaviour the model makes visible:

- The receiver writes a new block without acknowledging it. It acknowledges
  a block only when it arrives a second time. In a lossless run, each block
  but the last is therefore sent twice. In the schedule `Transfer` models,
  where the receiver's ACK 0 is already waiting when the first iteration
  starts, N blocks take 2N - 1 iterations after the handshake.
- The sender marks the transfer complete on sending any DATA packet shorter
  than 512 bytes (pygftlib/protocol.py:181). `terminating_block_no` is set
  (pygftlib/protocol.py:198) but never read, so it plays no part in
  completion. The model keeps the field and records it the same way.
- `_check_time` resends only when 1 < elapsed < 20 seconds: the window is
  strict at both ends (pygftlib/protocol.py:121-122). It aborts only past 20
  seconds, so at exactly 20 seconds nothing happens.
- After the ACK of block 65535, the next block number, 65536, does not fit
  in 16 bits. `to_bytes` then raises `OverflowError` after the chunk has
  been read, so nothing is queued. `Sender.LastBlockNumberOverflows` states
  this. The lossless theorem therefore requires at most 65535 blocks.

## Model

| member | source | states |
|---|---|---|
| Helpers.UnpackShortInt | gftlib/helpers.py:18 | `int.from_bytes(b, 'big')` of any length is below 256 to the power of the length |
| Helpers.PackShortInt | gftlib/helpers.py:14 | bytes pass through unchanged; an int packs exactly when it is in 0..65535, into 2 bytes, high byte first, that unpack to it; a str has no `to_bytes` (AttributeError) |
| Helpers.StrToBytes | gftlib/helpers.py:10 | bytes pass through; a str encodes exactly when it is ASCII, byte i being character i's code; an int always encodes |
| Helpers.AsciiDecode | pygftlib/packets.py:55-60 | `decode('ascii')` succeeds exactly on bytes below 0x80, and re-encoding its result gives the bytes back |
| Helpers.AsciiRoundTrip | pygftlib/packets.py:50-60 | decoding the ASCII encoding of an ASCII string gives the string |
| Helpers.PackUnpackRoundTrip | gftlib/helpers.py:14-18 | unpacking a packed 16-bit number gives it back |
| Helpers.UnpackPackRoundTrip | gftlib/helpers.py:14-18 | packing the number read from 2 bytes gives the 2 bytes back, so the two helpers are inverse bijections |
| Helpers.UnpackConcat | gftlib/helpers.py:18 | reading `a + b` big-endian is `a` read, shifted by 256 to the length of `b`, plus `b` read |
| Helpers.LeadingZeroIgnored | gftlib/helpers.py:18 | a leading zero byte does not change the number read |
| Helpers.UnpackShortIntSmall | gftlib/helpers.py:18 | the empty string reads as 0 and one byte reads as itself (the ACK parse of a short datagram) |
| Packets.ErrorMessage | pygftlib/packets.py:148-156 | the ERR table has exactly the codes 0 to 6, each with a non-empty message |
| Packets.BuildInitrqLayout | pygftlib/packets.py:50-53 | INITRQ builds exactly for an ASCII name, as `00 01`, the name and `00` |
| Packets.InitrqRoundTrip | pygftlib/packets.py:50-60 | a built INITRQ is 3 bytes longer than the name and parses back to it |
| Packets.BuildDataLayout | pygftlib/packets.py:83-87 | DATA is `00 02`, the 2-byte block number and the raw payload |
| Packets.DataRoundTrip | pygftlib/packets.py:83-96 | a built DATA packet is 4 bytes longer than its payload and parses back to the block number and payload |
| Packets.AckRoundTrip | pygftlib/packets.py:114-124 | ACK is the 4 bytes `00 03` and the block number, and parses back to the number |
| Packets.BuildErrLayout | pygftlib/packets.py:164-168 | ERR builds exactly for codes 0 to 6, as `00 04`, the code, the table's message and `00` |
| Packets.ErrRoundTrip | pygftlib/packets.py:164-180 | parsing a built ERR gives back the code and the table's message |
| Packets.ParseErrUnknownCode | pygftlib/packets.py:170-180 | parsing ERR raises KeyError exactly when the code on the wire is above 6 |
| Packets.BuiltPacketStartsWithOpCode | pygftlib/packets.py:50-168 | whatever a class builds starts with its own opcode as 2 big-endian bytes |
| Packets.AckVector | pygftlib/packets.py:192-197 | ACK 23 is `00 03 00 17`, which parses back to 23 |
| Packets.DataVector | pygftlib/packets.py:193-198 | DATA 24 with 'test' is `00 02 00 18 t e s t`, which parses back |
| Packets.InitrqVector | pygftlib/packets.py:195-201 | INITRQ 'test.dummy' is `00 01`, the ten name bytes and `00`, which parses back to the name |
| PacketFactory.OpCodesBijective | pygftlib/packet_factory.py:16-25 | the name-to-prefix half and the prefix-to-name half of `OP_CODES` are inverse to each other |
| PacketFactory.OpCodesMatchClasses | pygftlib/packet_factory.py:16-32 | each class's `PACKET_TYPES` name maps to its own opcode, packed, and back |
| PacketFactory.UpperMeaning | pygftlib/packet_factory.py:85 | `upper()` keeps the length, leaves no lower-case letter, turns each into its capital and keeps every other character; it changes a string exactly when the string has a lower-case letter |
| PacketFactory.FromBytes | pygftlib/packet_factory.py:40-73 | MalformedPacket exactly for an unknown prefix; otherwise each prefix gives its own class's parse |
| PacketFactory.FromBytesRejectsUnknownPrefix | pygftlib/packet_factory.py:49-53 | `from_bytes` raises MalformedPacket exactly when there are fewer than 2 bytes or they are not `00 01` to `00 04` (a known prefix can still fail in its class's parse, as ERR with an unknown code does) |
| PacketFactory.ToBytes | pygftlib/packet_factory.py:76-90 | no type is ValueError; a type that is not ack, initrq or data in any case is NotImplementedError |
| PacketFactory.UpperIdempotent | pygftlib/packet_factory.py:85-86 | upper-casing twice is upper-casing once |
| PacketFactory.ToBytesCaseInsensitive | pygftlib/packet_factory.py:85-86 | `to_bytes` gives the same result for a type name and its upper-case form |
| PacketFactory.AckFactoryRoundTrip | pygftlib/packet_factory.py:40-90 | `from_bytes(to_bytes('ack', n))` is n for every 16-bit n |
| PacketFactory.DataFactoryRoundTrip | pygftlib/packet_factory.py:40-90 | `from_bytes(to_bytes('data', n, payload))` is (n, payload) |
| PacketFactory.InitrqFactoryRoundTrip | pygftlib/packet_factory.py:40-90 | `from_bytes(to_bytes('initrq', name))` is the name, for every ASCII name |
| PacketFactory.ToBytesChecksAsItsType | pygftlib/packet_factory.py:76-103 | whatever `to_bytes(t)` builds, `check_type(t)` accepts |
| PacketFactory.ToBytesRefusesErr | pygftlib/packet_factory.py:85-90 | `to_bytes` raises NotImplementedError for err in any letter case |
| PacketFactory.CheckTypeMeaning | pygftlib/packet_factory.py:93-103 | `check_type(t, d)` holds iff the table maps `t` upper-cased to `d`'s prefix; an unknown prefix is a KeyError |
| PacketFactory.IsValidDependsOnLength | pygftlib/packet_factory.py:106-128 | with known prefixes, two datagrams of equal length validate alike |
| PacketFactory.IsValidErrors | pygftlib/packet_factory.py:113-128 | an unknown prefix is MalformedPacket before anything else; err is NotImplementedError; it succeeds iff prefix known and type in INITRQ, DATA, ACK |
| PacketFactory.IsValidBounds | pygftlib/packet_factory.py:119-124 | ACK is valid iff 4 bytes, INITRQ iff 4 to 512, DATA iff 2 to 512 |
| FileSource.ReadChunk | gftlib/file_io.py:38-49 | a read returns at most `size` bytes taken from the front of the rest; a short read finishes the reader, and a finished reader returns nothing |
| FileSource.ChunkSizes | gftlib/file_io.py:38-49 | every chunk but the last is 508 bytes, and the last is shorter, possibly empty |
| FileSource.ReadChunkAfter | gftlib/file_io.py:38-49 | the k-th read of 508 bytes returns the k-th chunk and leaves the reader past it |
| FileSource.ConcatChunks | gftlib/file_io.py:38-49 | the first k chunks put together are the file's prefix up to the end of chunk k |
| FileSource.WholeFile | gftlib/file_io.py:38-49 | all the chunks put together are the file |
| Sender.Start | pygftlib/protocol.py:55-79 | a sender starts exactly for a non-empty ASCII name (an empty one exits), holding its INITRQ as last packet, block 0, nothing queued |
| Sender.InitrqFactoryWire | pygftlib/protocol.py:68 | the factory's INITRQ is the INITRQ layout exactly for an ASCII name |
| Sender.ResendCommutesWithSend | pygftlib/protocol.py:177-178 | while packets are queued, a resend waits at the back: sending the head is the same before or after it |
| Sender.ResendSentAfterQueued | pygftlib/protocol.py:200-203 | a resent packet goes out only after every packet already queued, which go out as they would without it, and the next send then sends it |
| Sender.EnqueueNextBlock | pygftlib/protocol.py:186-199 | a 16-bit block number queues DATA of the next chunk, makes it the last packet and records a short chunk as terminating; a wider one only consumes the chunk |
| Sender.DataFactoryWire | pygftlib/protocol.py:191-196 | the factory's DATA is the DATA layout exactly for a 16-bit block number, and it checks as DATA and validates iff at most 512 bytes |
| Sender.CheckTime | pygftlib/protocol.py:112-130 | the sender gives up iff silent for more than 20 s, resends the last packet iff silent for 2 to 19 s, and otherwise changes nothing |
| Sender.SendPacket | pygftlib/protocol.py:170-183 | sends the queue's head, or else the last packet; completes iff that packet is DATA under 512 bytes; a short packet with an unknown prefix raises before sending |
| Sender.InvalidAckIgnored | pygftlib/protocol.py:139-142 | a timeout, or a datagram that fails the ACK check, changes nothing |
| Sender.AckWireReceived | pygftlib/protocol.py:139-145 | an ACK arrives whole through the 4-byte read, passes the ACK check and decodes to its block number |
| Sender.ValidAckHandling | pygftlib/protocol.py:141-160 | a valid ACK refreshes the activity time; the matching one advances the block number, and while the new number fits in 16 bits it queues DATA of the next chunk as the last packet; any other changes nothing more |
| Sender.AckSizedRefreshes | pygftlib/protocol.py:141-147 | any datagram whose first 4 bytes have a known opcode and decode refreshes the activity time, even one that is no ACK, which changes nothing else |
| Sender.OnlyAckAdvances | pygftlib/protocol.py:141-156 | a datagram without the ACK prefix moves neither the block number nor the queue |
| Sender.LastBlockNumberOverflows | pygftlib/protocol.py:155-156 | after ACK 65535 the block number becomes 65536 but no DATA is queued |
| Sender.AbortsIffSilent | pygftlib/protocol.py:112-168 | a running sender sets its error flag in an iteration that finds nothing waiting iff the peer has been silent for more than 20 s |
| Sender.AbortsIffSilentWaiting | pygftlib/protocol.py:112-168 | the same for an iteration that finds a datagram waiting |
| Sender.WellFormedSends | pygftlib/protocol.py:170-183 | a sender holding only opcode-prefixed packets sends one in every iteration that finds nothing waiting |
| Sender.WellFormedSendsWaiting | pygftlib/protocol.py:132-183 | the same for an iteration that finds a datagram waiting, whatever that datagram is |
| Sender.CompletesOnShortData | pygftlib/protocol.py:181-182 | an iteration that finds nothing waiting completes the transfer iff what it sent is a DATA packet under 512 bytes |
| Sender.CompletesOnShortDataWaiting | pygftlib/protocol.py:181-182 | the same for an iteration that finds a datagram waiting |
| Sender.ReceiveAckKeepsFlags | pygftlib/protocol.py:132-168 | handling a reply sets neither the completion nor the error flag |
| Sender.ReceiveAckWellFormed | pygftlib/protocol.py:132-168 | handling a reply keeps every packet held opcode-prefixed |
| Sender.StepPreservesWellFormed | pygftlib/protocol.py:92-93 | every iteration that finds nothing waiting keeps every packet held opcode-prefixed |
| Sender.StepWaitingPreservesWellFormed | pygftlib/protocol.py:92-93 | so does every iteration that finds a datagram waiting |
| Sender.StartWellFormed | pygftlib/protocol.py:68-69 | a fresh sender holds only its INITRQ, which is opcode-prefixed |
| Sender.BlockNoMonotone | pygftlib/protocol.py:155 | an iteration that finds nothing waiting leaves the block number as it was or one higher |
| Sender.BlockNoMonotoneWaiting | pygftlib/protocol.py:155 | so does an iteration that finds a datagram waiting |
| Sender.SilentPeerAborts | pygftlib/protocol.py:112-168 | with every read timing out, the loop stops once the silence exceeds 20 s, never errs before, and never refreshes the activity time |
| Receiver.CleanUp | pygftlib/protocol.py:304-317 | a purge empties the table; otherwise exactly the sessions idle over 40 s or complete are dropped, and the rest are kept unchanged |
| Receiver.SendAck | pygftlib/protocol.py:288-294 | refreshes the session's activity time and sends the ACK of its block number |
| Receiver.AckFactoryWire | pygftlib/protocol.py:293 | the factory's ACK is the ACK layout exactly for a 16-bit block number |
| Receiver.DisconnectedDropped | pygftlib/protocol.py:296-317 | a disconnected session is dropped by the next clean-up at any time, and disconnecting it changes no other session's fate |
| Receiver.ShortDataEndsSession | pygftlib/protocol.py:280-284 | after a DATA packet under 512 bytes, its session is still there, and the clean-up that starts the next `handle` drops it |
| Receiver.Stop | pygftlib/protocol.py:340-345 | drops every session |
| Receiver.NewSessionOnlyFromInitrq | pygftlib/protocol.py:226-253 | an unknown address gets a session at block 0 and ACK 0 iff it sent an INITRQ of 4 to 512 bytes; otherwise nothing changes beyond the clean-up |
| Receiver.RepeatedInitrqReacks | pygftlib/protocol.py:257-260 | a repeated INITRQ re-sends the ACK of the session's block and only refreshes the session |
| Receiver.DataHandling | pygftlib/protocol.py:261-284 | the next block is written and becomes the session's block; the current block is re-acknowledged; any other is ignored; a packet under 512 bytes completes the session; other sessions stay |
| Receiver.OtherPacketsDropped | pygftlib/protocol.py:224-286 | anything but INITRQ or DATA from a known address (ACK, ERR, or an unknown prefix, on which `check_type` raises) changes nothing beyond the clean-up |
| Receiver.OtherSessionsUntouched | pygftlib/protocol.py:224-286 | a datagram changes no session but its sender's, beyond dropping the expired ones |
| Receiver.DuplicateWrittenOnce | pygftlib/protocol.py:224-276 | the same next-block DATA delivered twice is written once; if the session is still there at the second delivery (not after the short last block, not after 40 s idle) that delivery re-acknowledges it, and otherwise it gets no reply |
| Receiver.IdleSessionEvicted | pygftlib/protocol.py:304-312 | a session idle over 40 s is gone after any other peer's datagram, complete or not |
| Receiver.CleanUpIdempotent | pygftlib/protocol.py:304-317 | a second clean-up at the same time drops nothing more |
| Receiver.WritesOnlyNextBlock | pygftlib/protocol.py:267-273 | anything written is the payload of a DATA packet one past a known session's block, and that block becomes the session's |
| Transfer.BeginOpens | pygftlib/protocol.py:85-91 | sending the INITRQ of a non-empty ASCII name of at most 509 characters opens one session and leaves ACK 0 waiting |
| Transfer.DataToSession | pygftlib/protocol.py:261-284 | the only session, given its next block, writes it; given its current block, re-acknowledges it |
| Transfer.AckAccepted | pygftlib/protocol.py:141-156 | for any 16-bit block number, the matching ACK is the same as advancing the block number and queueing the next block |
| Transfer.QueueBlock | pygftlib/protocol.py:186-199 | after block k - 1 the sender queues DATA of the k-th chunk and records the last one as terminating |
| Transfer.SendQueued | pygftlib/protocol.py:170-183 | a queued DATA block is sent and completes the transfer iff its chunk is short |
| Transfer.FirstSenderStep | pygftlib/protocol.py:132-183 | taking the waiting ACK 0, the sender reads block 1 and sends it |
| Transfer.FirstDelivery | pygftlib/protocol.py:261-284 | block 1 reaching the fresh session is written |
| Transfer.FirstStep | pygftlib/protocol.py:92-93 | the first iteration takes ACK 0 and gets block 1 written |
| Transfer.AckSenderStep | pygftlib/protocol.py:132-183 | with block k written and not last, the sender resends it, and the ACK of k makes it queue block k + 1 |
| Transfer.AckDelivery | pygftlib/protocol.py:261-284 | the resent block k is acknowledged again and not written a second time |
| Transfer.AckStep | pygftlib/protocol.py:92-93 | with block k written and not last, an iteration resends it, earns its ACK and queues block k + 1 |
| Transfer.WriteStep | pygftlib/protocol.py:92-93 | with block k queued, an iteration sends it and gets it written; the last block completes both sides |
| Transfer.RunFromWritten | pygftlib/protocol.py:92-93 | from block k written, 2(N - k) iterations reach the last block written |
| Transfer.LosslessTransfer | pygftlib/tests/test_functionality.py:13-25 | over a lossless network, with ACK 0 waiting before the first iteration, 2N - 1 iterations end the upload without error; the chunks written are the file's, in order, each once, which put together are the file; the one session is complete |

## Left out

- Sockets, gevent scheduling, `DatagramServer.serve_forever`, `Sender.stop`,
  `Receiver.start` and logging: these are I/O. Datagrams are values, and the
  sender's read is a parameter.
- `BaseProtocol`, `number_to_bytes`, the `__str__` methods, `gftlib/utils.py`,
  `pygftlib/misc.py` and `setup.py`: not part of the protocol's behaviour.
- Disk I/O: `FileWriter`, `sanitize_file_name` and slugify are not modelled.
  A written chunk is appended to a sequence. A file that cannot be opened,
  and a session whose file name failed to decode (None), are not modelled
  as failures.
- Time is whole seconds. `int(time.time() - last_active)` truncates a float
  in the source, and the model takes `now` as an integer.
- `upper()` is ASCII-only. Python's Unicode case mapping, which can change a
  string's length, is not modelled.
- The `data is None` branch of `check_type` is not modelled, because every
  caller passes bytes. `type=None` is modelled.
- The ERR table's `bool` keys (`True == 1` in Python) are not modelled; the
  table is looked up by int only.
- `read_chunk` with size 0, which falls back to the constructor's chunk size:
  the sender always asks for 508.
- The sender never checks the ACK's source address. Only the connected UDP
  socket filters it, and that filtering is outside the model.
- Packets.ErrorMessage: states the table's domain and that each message is
  non-empty, not the seven texts themselves, which the definition lists.
- Transfer.LosslessTransfer: assumes every reply arrives within the
  sender's one-second read and that all iterations fall in the same second,
  so no resend is triggered. Loss, reordering and delay are covered one step
  at a time by the Sender and Receiver lemmas.
- Transfer.LosslessTransfer: assumes the receiver's reply to the INITRQ
  (ACK 0) is already waiting before the first loop iteration (`Begin`).
  Under gevent, `upload` (pygftlib/protocol.py:89-93) may instead start both
  greenlets before that reply arrives: `recvfrom` then blocks, `send_packet`
  sends the INITRQ again, and the second ACK 0 it earns later only refreshes
  the activity time as a wrong-block ACK (pygftlib/protocol.py:147, 157-162).
  That schedule takes 2N iterations and is not proved; the single steps it
  consists of are covered by `Receiver.RepeatedInitrqReacks` and
  `Sender.ValidAckHandling`.
- Transfer.LosslessTransfer: states that the one session ends complete, so
  the next clean-up drops it (`Receiver.CleanUp`), rather than that the
  table is already empty.
- Transfer.Run: the upload loop carries an iteration bound (`fuel`), since
  with a silent peer the loop in the source ends only by the clock.

/** Protocol-wide constants of the package (pygftlib/__init__.py). Times are in seconds. */
module Constants {

  const MaxPacketSize: nat := 512
  const MinPacketSize: nat := 4
  /** Payload size of a DATA packet: 2 bytes of opcode and 2 of block number are left out. */
  const DataSize: nat := MaxPacketSize - 4
  /** A receiver session idle for longer than this is dropped. */
  const ConnTimeout: int := 40
  /** A sender that heard no ACK for longer than this gives up. */
  const MaxNoResponseTime: int := 20
  /** A sender that heard no ACK for longer than this resends its last packet. */
  const NoResponseTime: int := 1
}

/**
 The exceptions the modelled code can raise: the library's own
 MalformedPacketException (pygftlib/exceptions.py) and the Python built-in
 exceptions that the codec and the protocol let escape.
 */
module Errors {

  datatype Error =
    | MalformedPacket      // unknown two-byte opcode prefix
    | KeyError             // missing keyword argument, unknown prefix or unknown error code
    | ValueError           // a packet type of None
    | NotImplementedError  // a packet type the factory does not build or validate
    | OverflowError        // a 2-byte big-endian pack of an int outside 0..65535
    | UnicodeError         // ASCII encoding of a non-ASCII character
    | AttributeError       // pack_short_int of a str, which has no to_bytes
    | SystemExit           // a Sender created with an empty file name
}

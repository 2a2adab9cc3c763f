/** Constants and value types of the SiriusConnect Protocol (scp.h, sircon.h). */
module Scp {

  type Byte = b: int | 0 <= b < 0x100

  const PKT_SENTINEL: Byte := 0xA4
  const ASCII_ESC: Byte := 0x1B
  const SENTINEL_ESC: Byte := 0x53

  const HEADER_SIZE: nat := 6
  const SCP_MAX_DATA: nat := 255
  const SCP_MAX_PKT: nat := HEADER_SIZE + SCP_MAX_DATA + 1
  const SCP_STAGEBUFSIZE: nat := 2 * SCP_MAX_PKT

  const SIRCON_MAX_RETRIES: nat := 3
  const SIRCON_MAX_LINK_FAILURES: nat := 10
  const BUSY_DELAY_COUNT: nat := 1

  const SF_CHKSUM: Byte := 0x01
  const SF_BUSY: Byte := 0x02
  const SF_ACK: Byte := 0x80

  /** The bit tests of the header flags; each flag is a single bit of the byte. */
  predicate HasChksum(flags: Byte) { flags % 2 == 1 }
  predicate HasBusy(flags: Byte) { flags / 2 % 2 == 1 }
  predicate HasAck(flags: Byte) { flags / 0x80 % 2 == 1 }

  /** What a frame's one-byte length field can describe. */
  type Payload = p: seq<Byte> | |p| <= 255 witness []

  /** The part of a frame the link layer acts on. The two unnamed header bytes
      are written as 3 and 0 and never read back. */
  datatype Frame = Frame(seqno: Byte, flags: Byte, data: Payload)

  datatype ScResult = SUCCESS | TIMEOUT | NOMEMORY

  datatype Option<+T> = None | Some(value: T)

  /** Concatenation of a list of byte strings. */
  function Flatten<T>(parts: seq<seq<T>>): seq<T> {
    if parts == [] then [] else parts[0] + Flatten(parts[1..])
  }
}

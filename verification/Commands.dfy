/** Command encoding of `phomemo/protocol.py`. */
module Commands {
  import opened Bytes

  const ESC: byte := 0x1b
  const GS: byte := 0x1d

  function EncodeInit(): seq<byte> { [ESC, 0x40] }

  function EncodeDensity(value: byte): seq<byte> { [ESC, 0x4e, 0x04, value] }

  /** `n.to_bytes(2, "little")`, which refuses anything wider than 16 bits. */
  function Little16(n: nat): seq<byte>
    requires n < 0x1_0000
  {
    [n % 256, n / 256]
  }

  function EncodeRasterHeader(widthBytes: nat, height: nat, mode: byte): seq<byte>
    requires widthBytes < 0x1_0000 && height < 0x1_0000
  {
    [GS, 0x76, 0x30] + [mode] + Little16(widthBytes) + Little16(height)
  }

  /** None is the source's ValueError. */
  function EncodeFeedLines(lines: int): Option<seq<byte>> {
    if 1 <= lines <= 255 then Some([ESC, 0x64, lines]) else None
  }

  const BATTERY: byte := 0x08
  const FIRMWARE: byte := 0x07
  const PAPER_STATE: byte := 0x11
  const LID_STATE: byte := 0x12
  const SERIAL_ASCII: byte := 0x09
  const DEVICE_TIMER: byte := 0x0e

  /** `QueryCommand`. */
  function EncodeQuery(selector: byte): seq<byte> { [0x1f, 0x11, selector] }

  /** `encode_auto_off_timer`. */
  function EncodeAutoOffTimer(value: byte): seq<byte> { [ESC, 0x4e, 0x07, value] }
}

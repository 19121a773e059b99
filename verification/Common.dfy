/** Types shared by every module. */
module Common {
  datatype Option<+T> = None | Some(value: T)

  type byte = b: int | 0 <= b < 0x100 witness 0

  const NULL_TEXT: seq<byte> := [0x6e, 0x75, 0x6c, 0x6c]  // null
  const LINE_FEED: byte := 0x0a

  function Max(a: int, b: int): int { if a < b then b else a }
}

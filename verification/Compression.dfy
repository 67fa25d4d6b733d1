// Compression tags around an abstract zstd.
module Compression {
  import opened Wrappers
  import opened Codecs

  const TAG_NONE: byte := 0
  const TAG_ZSTD: byte := 1
  const MAX_DECOMPRESSED := 32 * 1024 * 1024

  function ZstdLevel(level: Level): int {
    match level
    case Fast => 1
    case Max => 9
    case _ => 3
  }

  function Compress(c: StoreCodec, level: Level, input: bytes): (byte, bytes) {
    if level == NoCompression then (TAG_NONE, input)
    else
      var packed := c.deflate(ZstdLevel(level), input);
      // keep the original unless space was saved
      if |packed| >= |input| then (TAG_NONE, input) else (TAG_ZSTD, packed)
  }

  function Decompress(c: StoreCodec, tag: byte, data: bytes, maxSize: nat): Result<bytes, Error> {
    if tag == TAG_NONE then
      if |data| > maxSize then Failure(Integrity) else Success(data)
    else if tag == TAG_ZSTD then
      match c.inflate(data)
      case None => Failure(Integrity)
      case Some(raw) => if |raw| > maxSize then Failure(Integrity) else Success(raw)
    else Failure(Format)
  }

  // What is compressed at any level comes back, or is refused, by its raw size
  // alone; and compression never makes the payload longer.
  lemma CompressInverse(c: StoreCodec, level: Level, raw: bytes, maxSize: nat)
    requires c.Lawful()
    ensures var (tag, data) := Compress(c, level, raw);
            && Decompress(c, tag, data, maxSize) == (if |raw| <= maxSize then Success(raw) else Failure(Integrity))
            && |data| <= |raw|
  {
  }

  // Without compression the input is stored. Else whatever is smaller is, the
  // input when neither is; zstd runs at level 1, 3 or 9, and tags say which.
  lemma SmallerStored(c: StoreCodec, level: Level, input: bytes)
    ensures level == NoCompression ==> Compress(c, level, input) == (0, input)
    ensures var packed := c.deflate(if level == Fast then 1 else if level == Default then 3 else 9, input);
            var (tag, data) := Compress(c, level, input);
            level != NoCompression ==>
              && |data| <= |packed| && |data| <= |input| && (data == input || data == packed)
              && (tag == 0 <==> |input| <= |packed|) && (tag == 1 <==> |packed| < |input|)
              && (tag == 0 ==> data == input) && (tag == 1 ==> data == packed)
  {
  }
}

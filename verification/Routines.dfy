/** The routines the library calls without looking inside: two compressors and the checksum. */
module Routines {
  import opened Bytes
  import opened Outcomes
  import Crc

  const CODEC_NONE: byte := 0
  const CODEC_LZ4: byte := 1
  const CODEC_ZSTD: byte := 2

  /** A compression library: both directions may fail; decompress is told the expected size. */
  datatype Codec = Codec(compress: bytes -> Option<bytes>, decompress: (bytes, nat) -> Option<bytes>)

  datatype Library = Library(lz4: Codec, zstd: Codec, crc32: bytes -> u32)

  /** The checksum is the one of the Crc module. What holds without this holds for any checksum. */
  ghost predicate Standard(lib: Library) {
    forall s: bytes {:trigger Crc.Checksum(s)} :: lib.crc32(s) == Crc.Checksum(s)
  }

  /** A chunk below this size fits its record even when it is stored raw. A compressor may give up on less. */
  const CHUNK_LIMIT: nat := 0xFFFF_FFF7

  ghost predicate CodecInverts(k: Codec) {
    forall s: bytes {:trigger k.compress(s)} :: |s| < CHUNK_LIMIT && k.compress(s).Some? ==>
      && |k.compress(s).value| + 9 < 0x1_0000_0000
      && k.decompress(k.compress(s).value, |s|) == Some(s)
  }

  /** Whatever a compressor produces fits a record and decompresses to what went in. */
  ghost predicate Inverts(lib: Library) { CodecInverts(lib.lz4) && CodecInverts(lib.zstd) }

  function Compress(lib: Library, codec: byte, raw: bytes): Option<bytes> {
    if codec == CODEC_LZ4 then lib.lz4.compress(raw)
    else if codec == CODEC_ZSTD then lib.zstd.compress(raw)
    else Some(raw)
  }

  /** The compressed form, or the raw bytes when the compressor gives up. */
  function Packed(lib: Library, codec: byte, raw: bytes): bytes {
    match Compress(lib, codec, raw)
    case Some(c) => c
    case None => raw
  }

  function Sized(r: Option<bytes>, n: nat): Option<bytes> {
    if r.Some? && |r.value| == n then r else None
  }

  function Decompress(lib: Library, codec: byte, data: bytes, n: nat): (r: Option<bytes>)
    ensures r.Some? ==> |r.value| == n
  {
    if codec == CODEC_NONE then (if |data| == n then Some(data) else None)
    else if codec == CODEC_LZ4 then Sized(lib.lz4.decompress(data, n), n)
    else if codec == CODEC_ZSTD then Sized(lib.zstd.decompress(data, n), n)
    else None
  }

  lemma PackedInverts(lib: Library, codec: byte, raw: bytes)
    requires Inverts(lib) && codec <= CODEC_ZSTD && |raw| < CHUNK_LIMIT
    ensures |Packed(lib, codec, raw)| + 9 < 0x1_0000_0000
    ensures Compress(lib, codec, raw).Some? ==> Decompress(lib, codec, Packed(lib, codec, raw), |raw|) == Some(raw)
  {
  }
}

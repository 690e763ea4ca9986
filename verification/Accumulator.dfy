/** The buffer in which the messages of a compressed channel wait for their chunk. */
module Accumulator {
  import opened Bytes
  import opened Routines
  import opened Stream
  import opened Recording

  class ChunkAccumulator {
    const Codec: byte
    const MaxUncompressed: u32
    const FlushIntervalMs: u32
    var Buffer: bytes
    var RecordCount: nat

    /** The accumulator of channel d, with exactly these messages in it. */
    ghost predicate Holds(d: ChannelDef, ms: seq<Msg>)
      reads this
    {
      && Codec == d.compression && MaxUncompressed == d.chunkSize && FlushIntervalMs == d.flushMs
      && Buffer == Inner(ms) && RecordCount == |ms|
    }

    constructor (d: ChannelDef)
      ensures Holds(d, [])
    {
      Codec, MaxUncompressed, FlushIntervalMs := d.compression, d.chunkSize, d.flushMs;
      Buffer, RecordCount := [], 0;
    }

    /** Appends an inner record and says whether a flush is due: by size, or because the interval has elapsed. */
    method Push(ghost d: ChannelDef, ghost ms: seq<Msg>, m: Msg, timeUp: bool) returns (due: bool)
      requires Holds(d, ms)
      modifies this
      ensures Holds(d, ms + [m])
      ensures due == (|Inner(ms + [m])| >= d.chunkSize || (d.flushMs > 0 && timeUp))
    {
      InnerSnoc(ms, m);
      Buffer := Buffer + LE(m.ts, 8) + LE(|m.data|, 4) + m.data;
      RecordCount := RecordCount + 1;
      assert Buffer == Inner(ms) + InnerOne(m);
      var sizeExceeded := |Buffer| >= MaxUncompressed;
      var timeExceeded := FlushIntervalMs > 0 && timeUp;
      due := sizeExceeded || timeExceeded;
    }

    /** The payload handed to the flush callback. */
    method Compressed(lib: Library) returns (payload: bytes)
      ensures payload == Packed(lib, Codec, Buffer)
    {
      var c := Compress(lib, Codec, Buffer);
      payload := if c.Some? then c.value else Buffer;
    }

    /** Forgets the buffered messages once they are written. */
    method Clear(ghost d: ChannelDef, ghost ms: seq<Msg>)
      requires Holds(d, ms)
      modifies this
      ensures Holds(d, [])
    {
      Buffer := [];
      RecordCount := 0;
    }
  }
}

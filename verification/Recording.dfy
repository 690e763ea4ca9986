/**
 * A recording, abstractly: which entries each segment holds, in order, and which messages are
 * still buffered. The operations here say when segments rotate and where messages go; the writer
 * class is proved to carry out exactly these operations on bytes, counters and buffers.
 */
module Recording {
  import opened Bytes
  import opened Format
  import opened Routines
  import opened Stream
  import opened Index
  import Seqs

  datatype ChannelDef = ChannelDef(
    id: u16, name: bytes, layer: byte, compression: byte, chunkSize: u32, flushMs: u32, schema: bytes, metadata: bytes)

  datatype Config = Config(
    lib: Library, sessionId: bytes, createdAtNs: u64, version: bytes,
    crcEnabled: bool, singleFile: bool, maxBytes: nat, maxDurationNs: nat, intervalNs: u64)

  ghost predicate Usable(c: Config) {
    && |c.sessionId| == 16 && |c.version| < 0x1_0000
    && Standard(c.lib) && Inverts(c.lib)
    && (c.singleFile ==> c.maxBytes == 0 && c.maxDurationNs == 0)
  }

  // ----- entries -----

  /** One record of a segment, before it is laid out in bytes. */
  datatype Entry =
    | Message(m: Msg)
    | Chunk(ch: u16, codec: byte, msgs: seq<Msg>)
    | Control(op: byte, ch: u16, ts: u64, payload: bytes)

  /** The record before its checksum is known. */
  function Bare(c: Config, op: byte, ch: u16, compressed: bool, ts: u64, payload: bytes): (r: Rec)
    ensures r.payload == payload
  {
    var flags := (if compressed then FLAG_COMPRESSED else 0) + (if c.crcEnabled then FLAG_CRC else 0);
    Rec(op, ch, flags, ts, 0, payload)
  }

  /** The record with its checksum, when checksums are enabled. */
  function Stamp(c: Config, op: byte, ch: u16, compressed: bool, ts: u64, payload: bytes): (r: Rec)
    ensures r.payload == payload
  {
    var r := Bare(c, op, ch, compressed, ts, payload);
    if c.crcEnabled then r.(crc := c.lib.crc32(Head(r) + payload)) else r
  }

  lemma StampedBytes(c: Config, op: byte, ch: u16, compressed: bool, ts: u64, payload: bytes, crc: u32)
    requires var r := Bare(c, op, ch, compressed, ts, payload);
             crc == if c.crcEnabled then c.lib.crc32(Head(r) + payload) else 0
    ensures Encode(Stamp(c, op, ch, compressed, ts, payload)) ==
            Head(Bare(c, op, ch, compressed, ts, payload)) + LE(crc, 4) + payload
  {
    hide LE;
  }

  function FirstTs(msgs: seq<Msg>): u64 { if msgs == [] then 0 else msgs[0].ts }

  function LastTs(msgs: seq<Msg>): u64 { if msgs == [] then 0 else msgs[|msgs| - 1].ts }

  function ChunkHead(codec: byte, size: nat, count: nat): (s: bytes)
    ensures |s| == CHUNK_HEADER_SIZE
  {
    [codec] + LE(size, 4) + LE(count, 4)
  }

  function ChunkPayload(lib: Library, codec: byte, msgs: seq<Msg>): bytes {
    ChunkHead(codec, |Inner(msgs)|, |msgs|) + Packed(lib, codec, Inner(msgs))
  }

  function ToRec(c: Config, e: Entry): Rec {
    match e
    case Message(m) => Stamp(c, OP_DATA, m.ch, false, m.ts, m.data)
    case Chunk(ch, codec, msgs) => Stamp(c, OP_CHUNK, ch, true, FirstTs(msgs), ChunkPayload(c.lib, codec, msgs))
    case Control(op, ch, ts, payload) => Stamp(c, op, ch, false, ts, payload)
  }

  /** The messages an entry stands for. */
  function EntryMsgs(e: Entry): seq<Msg> {
    match e
    case Message(m) => [m]
    case Chunk(_, _, msgs) => msgs
    case Control(_, _, _, _) => []
  }

  function Recs(c: Config, es: seq<Entry>): (rs: seq<Rec>)
    ensures |rs| == |es|
  {
    if es == [] then [] else Recs(c, es[..|es| - 1]) + [ToRec(c, es[|es| - 1])]
  }

  function Content(es: seq<Entry>): seq<Msg> {
    if es == [] then [] else Content(es[..|es| - 1]) + EntryMsgs(es[|es| - 1])
  }

  function Body(c: Config, es: seq<Entry>): bytes { EncodeAll(Recs(c, es)) }

  // ----- what a segment knows about its data -----

  /** Whether the segment holds data, and the least first and greatest last timestamp of its data entries. */
  datatype Range = Range(hasData: bool, startNs: u64, lastNs: u64)

  function Noted(r: Range, firstTs: u64, lastTs: u64): Range {
    if !r.hasData then Range(true, firstTs, lastTs)
    else Range(true, if firstTs < r.startNs then firstTs else r.startNs, if lastTs > r.lastNs then lastTs else r.lastNs)
  }

  function DataRange(es: seq<Entry>): Range {
    if es == [] then Range(false, 0, 0)
    else
      var r := DataRange(es[..|es| - 1]);
      var e := es[|es| - 1];
      if e.Control? then r else Noted(r, FirstTs(EntryMsgs(e)), LastTs(EntryMsgs(e)))
  }

  function EntryChannel(e: Entry): u16 {
    match e
    case Message(m) => m.ch
    case Chunk(ch, _, _) => ch
    case Control(_, ch, _, _) => ch
  }

  /** The file offset at which the entry after es begins. */
  function OffsetAfter(c: Config, es: seq<Entry>): nat { HEADER_SIZE + |Body(c, es)| }

  function Points(c: Config, es: seq<Entry>): seq<SeekPoint> {
    if es == [] then []
    else
      var before := es[..|es| - 1];
      var e := es[|es| - 1];
      if e.Control? then Points(c, before)
      else AddIfDue(c.intervalNs, Points(c, before), SeekPoint(EntryChannel(e), FirstTs(EntryMsgs(e)), OffsetAfter(c, before)))
  }

  lemma Snoc(c: Config, es: seq<Entry>, e: Entry)
    ensures Recs(c, es + [e]) == Recs(c, es) + [ToRec(c, e)]
    ensures Body(c, es + [e]) == Body(c, es) + Encode(ToRec(c, e))
    ensures Content(es + [e]) == Content(es) + EntryMsgs(e)
    ensures DataRange(es + [e]) ==
            if e.Control? then DataRange(es) else Noted(DataRange(es), FirstTs(EntryMsgs(e)), LastTs(EntryMsgs(e)))
    ensures Points(c, es + [e]) ==
            if e.Control? then Points(c, es)
            else AddIfDue(c.intervalNs, Points(c, es), SeekPoint(EntryChannel(e), FirstTs(EntryMsgs(e)), OffsetAfter(c, es)))
  {
    hide ToRec, Encode, EncodeAll, FirstTs, LastTs, AddIfDue, Noted, OffsetAfter;
    assert (es + [e])[..|es|] == es;
    EncodeAllSnoc(Recs(c, es), ToRec(c, e));
  }

  lemma {:induction false} RecsConcat(c: Config, a: seq<Entry>, b: seq<Entry>)
    ensures Recs(c, a + b) == Recs(c, a) + Recs(c, b)
    decreases |b|
  {
    hide ToRec;
    if b == [] {
      assert a + b == a;
    } else {
      var n := |b| - 1;
      assert (a + b)[..|a + b| - 1] == a + b[..n];
      RecsConcat(c, a, b[..n]);
      Seqs.Regroup(Recs(c, a), Recs(c, b[..n]), [ToRec(c, b[n])]);
    }
  }

  lemma BodyConcat(c: Config, a: seq<Entry>, b: seq<Entry>)
    ensures Body(c, a + b) == Body(c, a) + Body(c, b)
  {
    RecsConcat(c, a, b);
    EncodeAllConcat(Recs(c, a), Recs(c, b));
  }

  lemma BodyOfOne(c: Config, e: Entry)
    ensures Body(c, [e]) == Encode(ToRec(c, e))
  {
    hide ToRec, Encode;
    assert [e] == [] + [e];
    Snoc(c, [], e);
  }

  // ----- segments -----

  datatype Segment = Segment(header: bytes, entries: seq<Entry>)

  /** The 32-bit number of a segment. */
  function SegmentNumber(n: nat): u32 { n % 0x1_0000_0000 }

  datatype SegmentInfo = SegmentInfo(index: u32, startNs: u64, endNs: u64, size: nat)

  const FILE_FLAG_COMPRESSION: u16 := 1
  const FILE_FLAG_CRC: u16 := 2

  predicate AnyCompressed(channels: seq<ChannelDef>) {
    exists d :: d in channels && d.compression != CODEC_NONE
  }

  function Header(c: Config, index: u32, channels: seq<ChannelDef>): (s: bytes)
    requires |c.sessionId| == 16
    ensures |s| == HEADER_SIZE && s[..8] == MAGIC && s[8] == 1
  {
    var flags := (if AnyCompressed(channels) then FILE_FLAG_COMPRESSION else 0) + (if c.crcEnabled then FILE_FLAG_CRC else 0);
    MAGIC + [1, 0] + c.sessionId + LE(index, 4) + LE(c.createdAtNs, 8) + LE(flags, 2) + seq(24, _ => 0)
  }

  function Text(s: string): (t: bytes)
    ensures |t| == |s|
  {
    seq(|s|, i requires 0 <= i < |s| => s[i] as int % 0x100)
  }

  function Digits(n: nat): (s: bytes)
    ensures 1 <= |s| <= n + 1
  {
    if n < 10 then [48 + n] else Digits(n / 10) + [48 + n % 10]
  }

  function StartEntry(c: Config, index: u32): Entry {
    Control(OP_SESSION_START, INVALID_CHANNEL, c.createdAtNs,
            Text("{\"recorder_version\":\"") + c.version + Text("\",\"segment_index\":") + Digits(index) + Text("}"))
  }

  /** Strings carry a 16-bit length that is cut to 16 bits, but all their bytes. */
  function StoredString(s: bytes): bytes { LE(|s| % 0x1_0000, 2) + s }

  function StoredDef(d: ChannelDef): bytes {
    LE(d.id, 2) + [d.layer, d.compression] + LE(d.chunkSize, 4) + LE(d.flushMs, 4)
    + StoredString(d.name) + StoredString(d.schema) + LE(|d.metadata|, 4) + d.metadata
  }

  function DefEntry(c: Config, d: ChannelDef): Entry { Control(OP_CHANNEL_DEF, d.id, c.createdAtNs, StoredDef(d)) }

  function DefEntries(c: Config, channels: seq<ChannelDef>): seq<Entry> {
    if channels == [] then [] else DefEntries(c, channels[..|channels| - 1]) + [DefEntry(c, channels[|channels| - 1])]
  }

  function Fresh(c: Config, index: u32, channels: seq<ChannelDef>): Segment
    requires |c.sessionId| == 16
  {
    Segment(Header(c, index, channels), [StartEntry(c, index)] + DefEntries(c, channels))
  }

  function FileBytes(c: Config, seg: Segment): bytes { seg.header + Body(c, seg.entries) }

  function IndexEntry(c: Config, es: seq<Entry>): Entry {
    Control(OP_INDEX, INVALID_CHANNEL, DataRange(es).lastNs, CutPoints(Points(c, es)))
  }

  function Duration(r: Range): u64 { if r.hasData && r.lastNs >= r.startNs then r.lastNs - r.startNs else 0 }

  /** The end record repeats the footer's count minus one: it is written before it is counted. */
  function EndEntry(es: seq<Entry>): Entry {
    Control(OP_SESSION_END, INVALID_CHANNEL, DataRange(es).lastNs, LE(|es| + 1, 8) + LE(Duration(DataRange(es)), 8))
  }

  function SealedEntries(c: Config, es: seq<Entry>): seq<Entry> { es + [IndexEntry(c, es)] + [EndEntry(es)] }

  /** A segment file as it stands after the segment is closed. */
  function SealedFile(c: Config, seg: Segment): bytes {
    seg.header + Body(c, SealedEntries(c, seg.entries))
    + Footer(c.lib, |FileBytes(c, seg)|, |seg.entries| + 2)
  }

  function Info(c: Config, index: nat, seg: Segment): SegmentInfo {
    SegmentInfo(SegmentNumber(index), DataRange(seg.entries).startNs, DataRange(seg.entries).lastNs, |SealedFile(c, seg)|)
  }

  // ----- the recording -----

  datatype Log = Log(channels: seq<ChannelDef>, closed: seq<Segment>, cur: Segment, pending: seq<seq<Msg>>)

  function Opened(c: Config): Log
    requires |c.sessionId| == 16
  {
    Log([], [], Fresh(c, 0, []), [])
  }

  function Append(L: Log, e: Entry): Log { L.(cur := L.cur.(entries := L.cur.entries + [e])) }

  /** Closes the current segment without flushing and opens the next. */
  function Rotate(c: Config, L: Log): Log
    requires |c.sessionId| == 16
  {
    L.(closed := L.closed + [L.cur], cur := Fresh(c, SegmentNumber(|L.closed| + 1), L.channels))
  }

  predicate NeedsRotation(c: Config, seg: Segment, ts: u64, needed: nat) {
    || (c.maxBytes > 0 && |FileBytes(c, seg)| + needed > c.maxBytes)
    || var start := DataRange(seg.entries).startNs;
       c.maxDurationNs > 0 && start > 0 && ts >= start && ts - start >= c.maxDurationNs
  }

  /** Footer, end record and (roughly) an index envelope: what closing a segment is estimated to need. */
  const CLOSING_SIZE: nat := FOOTER_SIZE + ENVELOPE_SIZE + 16 + ENVELOPE_SIZE

  function PendingChunk(L: Log, ch: nat): (e: Entry)
    requires ch < |L.pending| == |L.channels| <= 0x1_0000
    ensures e.Chunk?
  {
    Chunk(ch, L.channels[ch].compression, L.pending[ch])
  }

  /** The flush callback answers ErrorFull: the chunk would not fit a segment that already holds data. */
  predicate Refused(c: Config, L: Log, e: Entry)
    requires e.Chunk?
  {
    && !c.singleFile && DataRange(L.cur.entries).hasData
    && NeedsRotation(c, L.cur, FirstTs(e.msgs), ENVELOPE_SIZE + |ChunkPayload(c.lib, e.codec, e.msgs)| + CLOSING_SIZE)
  }

  /** Flushes one accumulator, rotating first when the chunk is refused. */
  function FlushOne(c: Config, L: Log, ch: nat): (r: Log)
    requires |c.sessionId| == 16 && ch < |L.pending| == |L.channels| <= 0x1_0000
    ensures r.channels == L.channels && |r.pending| == |L.pending|
  {
    if L.pending[ch] == [] then L
    else
      var e := PendingChunk(L, ch);
      var L1 := if Refused(c, L, e) then Rotate(c, L) else L;
      Append(L1, e).(pending := L.pending[ch := []])
  }

  function FlushFrom(c: Config, L: Log, ch: nat): (r: Log)
    requires |c.sessionId| == 16 && ch <= |L.pending| == |L.channels| <= 0x1_0000
    ensures r.channels == L.channels && |r.pending| == |L.pending|
    decreases |L.pending| - ch
  {
    if ch == |L.pending| then L else FlushFrom(c, FlushOne(c, L, ch), ch + 1)
  }

  function FlushAll(c: Config, L: Log): (r: Log)
    requires |c.sessionId| == 16 && |L.pending| == |L.channels| <= 0x1_0000
    ensures r.channels == L.channels && |r.pending| == |L.pending|
  {
    FlushFrom(c, L, 0)
  }

  function RotateSegment(c: Config, L: Log): (r: Log)
    requires |c.sessionId| == 16 && |L.pending| == |L.channels| <= 0x1_0000
    ensures r.channels == L.channels && |r.pending| == |L.pending|
  {
    Rotate(c, FlushAll(c, L))
  }

  /** Write on an uncompressed channel. */
  function WriteDirect(c: Config, L: Log, m: Msg): (r: Log)
    requires |c.sessionId| == 16 && |L.pending| == |L.channels| <= 0x1_0000
    ensures r.channels == L.channels && |r.pending| == |L.pending|
  {
    var L1 := if NeedsRotation(c, L.cur, m.ts, ENVELOPE_SIZE + |m.data| + CLOSING_SIZE) then RotateSegment(c, L) else L;
    Append(L1, Message(m))
  }

  /** Write on a compressed channel; timeUp is the flush interval having elapsed. */
  function WriteBuffered(c: Config, L: Log, m: Msg, timeUp: bool): (r: Log)
    requires |c.sessionId| == 16 && m.ch < |L.pending| == |L.channels| <= 0x1_0000
    ensures r.channels == L.channels && |r.pending| == |L.pending|
  {
    var ms := L.pending[m.ch] + [m];
    var L1 := L.(pending := L.pending[m.ch := ms]);
    var d := L.channels[m.ch];
    if |Inner(ms)| >= d.chunkSize || (d.flushMs > 0 && timeUp) then FlushOne(c, L1, m.ch) else L1
  }

  function Write(c: Config, L: Log, m: Msg, timeUp: bool): (r: Log)
    requires |c.sessionId| == 16 && m.ch < |L.pending| == |L.channels| <= 0x1_0000
    ensures r.channels == L.channels && |r.pending| == |L.pending|
  {
    if L.channels[m.ch].compression == CODEC_NONE then WriteDirect(c, L, m) else WriteBuffered(c, L, m, timeUp)
  }

  function StoredAnnotation(text: bytes, metadata: bytes): bytes {
    LE(|text|, 2) + text + LE(|metadata|, 4) + metadata
  }

  function Annotation(ts: u64, text: bytes, metadata: bytes): Entry {
    Control(OP_ANNOTATION, INVALID_CHANNEL, ts, StoredAnnotation(text, metadata))
  }

  function Annotate(c: Config, L: Log, ts: u64, text: bytes, metadata: bytes): (r: Log)
    requires |c.sessionId| == 16 && |L.pending| == |L.channels| <= 0x1_0000
    ensures r.channels == L.channels && |r.pending| == |L.pending|
  {
    Append(FlushAll(c, L), Annotation(ts, text, metadata))
  }

  function Define(c: Config, L: Log, d: ChannelDef): Log {
    Append(L, DefEntry(c, d)).(channels := L.channels + [d], pending := L.pending + [[]])
  }

  /** The session after Close: every segment sealed. */
  function Closing(c: Config, L: Log): seq<Segment>
    requires |c.sessionId| == 16 && |L.pending| == |L.channels| <= 0x1_0000
  {
    var L1 := FlushAll(c, L);
    L1.closed + [L1.cur]
  }
}

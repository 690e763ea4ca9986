/** What every operation of a recording keeps: sound entries, and every accepted message exactly once, in order. */
module Conservation {
  import opened Bytes
  import opened Format
  import opened Outcomes
  import opened Routines
  import opened Stream
  import opened Recording
  import Seqs

  // ----- sound entries -----

  ghost predicate SoundEntry(e: Entry) {
    match e
    case Message(m) => |m.data| < 0x1_0000_0000
    case Chunk(ch, codec, msgs) => msgs != [] && OnChannel(msgs, ch) && codec <= CODEC_ZSTD && |Inner(msgs)| < CHUNK_LIMIT
    case Control(op, _, _, payload) => op != OP_DATA && op != OP_CHUNK && |payload| < 0x1_0000_0000
  }

  ghost predicate SoundEntries(es: seq<Entry>) { forall e :: e in es ==> SoundEntry(e) }

  lemma {:induction false} InnerCount(ms: seq<Msg>)
    ensures 12 * |ms| <= |Inner(ms)|
  {
    if ms != [] {
      InnerCount(ms[1..]);
    }
  }

  lemma StampIsIntact(c: Config, op: byte, ch: u16, compressed: bool, ts: u64, payload: bytes)
    ensures Intact(c.lib, Stamp(c, op, ch, compressed, ts, payload))
  {
    var r := Stamp(c, op, ch, compressed, ts, payload);
    assert Head(r) == Head(r.(crc := 0));
  }

  /** The record of a sound entry is well framed and passes its checksum. */
  lemma RecordIsIntact(c: Config, e: Entry)
    requires SoundEntry(e) && Inverts(c.lib)
    ensures Framed(ToRec(c, e)) && Intact(c.lib, ToRec(c, e))
  {
    hide Intact, Stamp, Inner, OnChannel;
    match e
    case Message(m) => StampIsIntact(c, OP_DATA, m.ch, false, m.ts, m.data);
    case Control(op, ch, ts, payload) => StampIsIntact(c, op, ch, false, ts, payload);
    case Chunk(ch, codec, msgs) =>
      PackedInverts(c.lib, codec, Inner(msgs));
      StampIsIntact(c, OP_CHUNK, ch, true, FirstTs(msgs), ChunkPayload(c.lib, codec, msgs));
  }

  /** No compressor gives up on the entry. */
  ghost predicate Compresses(c: Config, e: Entry) {
    e.Chunk? ==> Compress(c.lib, e.codec, Inner(e.msgs)).Some?
  }

  lemma ChunkFields(lib: Library, codec: byte, msgs: seq<Msg>)
    requires |Inner(msgs)| < CHUNK_LIMIT
    ensures var p := ChunkPayload(lib, codec, msgs);
            p[0] == codec && U32(p[1..5]) == |Inner(msgs)| && U32(p[5..9]) == |msgs| && p[9..] == Packed(lib, codec, Inner(msgs))
  {
    hide Inner, Packed;
    InnerCount(msgs);
    var p := ChunkPayload(lib, codec, msgs);
    assert p[1..5] == LE(|Inner(msgs)|, 4) && p[5..9] == LE(|msgs|, 4) && p[9..] == Packed(lib, codec, Inner(msgs));
    ReadBack(0, |Inner(msgs)|, 0);
    ReadBack(0, |msgs|, 0);
  }

  /** A chunk that was compressed unpacks to the messages that went into it. */
  lemma ChunkReadsBack(c: Config, ch: u16, codec: byte, msgs: seq<Msg>)
    requires SoundEntry(Chunk(ch, codec, msgs)) && Inverts(c.lib) && Compresses(c, Chunk(ch, codec, msgs))
    ensures var p := ChunkPayload(c.lib, codec, msgs);
            |p| >= CHUNK_HEADER_SIZE && ChunkBuffer(c.lib, p) == Some(Inner(msgs)) && ChunkCount(p) == |msgs|
    ensures Unpack(ch, Inner(msgs), |msgs|) == msgs
  {
    hide Inner, Unpack, Compress, Packed, Decompress, U32;
    ChunkFields(c.lib, codec, msgs);
    PackedInverts(c.lib, codec, Inner(msgs));
    UnpackOfInner(ch, msgs);
  }

  /** Read back, the record of a sound entry gives exactly the messages of the entry. */
  lemma RecordReadsBack(c: Config, e: Entry)
    requires SoundEntry(e) && Inverts(c.lib) && Compresses(c, e)
    ensures RecMsgs(c.lib, ToRec(c, e)) == EntryMsgs(e)
    ensures RecCorrupt(c.lib, ToRec(c, e)) == 0
  {
    hide Intact, Inner, OnChannel, ChunkPayload, ChunkBuffer, ChunkCount, Unpack, Head, Compress;
    RecordIsIntact(c, e);
    if e.Chunk? {
      ChunkReadsBack(c, e.ch, e.codec, e.msgs);
    }
  }

  lemma {:induction false} RecsReadBack(c: Config, es: seq<Entry>)
    requires SoundEntries(es) && Inverts(c.lib) && forall e :: e in es ==> Compresses(c, e)
    ensures Msgs(c.lib, Recs(c, es)) == Content(es)
    ensures Corrupt(c.lib, Recs(c, es)) == 0
    decreases |es|
  {
    hide RecMsgs, RecCorrupt, ToRec, SoundEntry, Compresses;
    if es != [] {
      var n := |es| - 1;
      RecsReadBack(c, es[..n]);
      RecordReadsBack(c, es[n]);
      var r := ToRec(c, es[n]);
      MsgsConcat(c.lib, Recs(c, es[..n]), [r]);
      assert [r][1..] == [];
      assert RecMsgs(c.lib, r) + [] == RecMsgs(c.lib, r);
    }
  }

  lemma {:induction false} RecsAreIntact(c: Config, es: seq<Entry>)
    requires SoundEntries(es) && Inverts(c.lib)
    ensures AllFramed(Recs(c, es)) && AllIntact(c.lib, Recs(c, es))
    decreases |es|
  {
    if es != [] {
      var n := |es| - 1;
      RecsAreIntact(c, es[..n]);
      RecordIsIntact(c, es[n]);
    }
  }

  // ----- sound recordings -----

  ghost predicate SoundHeader(h: bytes) { |h| == HEADER_SIZE && h[..8] == MAGIC && h[8] == 1 }

  ghost predicate SoundSegment(seg: Segment) { SoundHeader(seg.header) && SoundEntries(seg.entries) }

  ghost predicate SoundChannel(d: ChannelDef, i: nat) {
    d.id == i && d.compression <= CODEC_ZSTD && |StoredDef(d)| < 0x1_0000_0000
  }

  /** What is buffered for a channel belongs to it and stays within what a compressor takes. */
  ghost predicate SoundPending(d: ChannelDef, ms: seq<Msg>) {
    OnChannel(ms, d.id) && (d.compression == CODEC_NONE ==> ms == []) && |Inner(ms)| < CHUNK_LIMIT
  }

  ghost predicate Good(c: Config, L: Log) {
    && Usable(c)
    && |L.pending| == |L.channels| <= 0xFFFE
    && (forall i :: 0 <= i < |L.channels| ==> SoundChannel(L.channels[i], i) && SoundPending(L.channels[i], L.pending[i]))
    && (forall i :: 0 <= i < |L.closed| ==> SoundSegment(L.closed[i]))
    && SoundSegment(L.cur)
  }

  /** Between public calls every buffer is below its flush size. */
  ghost predicate Settled(L: Log)
    requires |L.pending| == |L.channels|
  {
    forall i :: 0 <= i < |L.channels| ==> L.pending[i] == [] || |Inner(L.pending[i])| < L.channels[i].chunkSize
  }

  /** The message fits its record, and the buffer of its channel still fits one with the message behind it. */
  ghost predicate Fits(L: Log, m: Msg)
    requires m.ch < |L.channels|
  {
    && |m.data| < 0x1_0000_0000
    && (L.channels[m.ch].compression != CODEC_NONE && m.ch < |L.pending| ==> |Inner(L.pending[m.ch])| + 12 + |m.data| < CHUNK_LIMIT)
  }

  lemma SoundAppend(es: seq<Entry>, e: Entry)
    requires SoundEntries(es) && SoundEntry(e)
    ensures SoundEntries(es + [e])
  {
  }

  lemma StartIsSound(c: Config, index: u32)
    requires Usable(c)
    ensures SoundEntry(StartEntry(c, index))
  {
    DigitsBound(index);
  }

  lemma {:induction false} DigitsBound(n: nat)
    requires n < 0x1_0000_0000
    ensures |Digits(n)| <= n / 10 + 1
  {
    if n >= 10 {
      DigitsBound(n / 10);
    }
  }

  /** Nothing but sound control records. */
  ghost predicate Blank(c: Config, es: seq<Entry>) {
    SoundEntries(es) && Content(es) == [] && !DataRange(es).hasData && Points(c, es) == []
  }

  lemma BlankSnoc(c: Config, es: seq<Entry>, e: Entry)
    requires Blank(c, es) && SoundEntry(e) && e.Control?
    ensures Blank(c, es + [e])
  {
    hide SoundEntry, Content, DataRange, Points;
    SoundAppend(es, e);
    Snoc(c, es, e);
  }

  lemma BlankStart(c: Config, index: u32)
    requires Usable(c)
    ensures Blank(c, [] + [StartEntry(c, index)])
  {
    StartIsSound(c, index);
    BlankSnoc(c, [], StartEntry(c, index));
  }

  lemma {:induction false} FreshEntries(c: Config, index: u32, channels: seq<ChannelDef>)
    requires Usable(c)
    requires forall i :: 0 <= i < |channels| ==> SoundChannel(channels[i], i)
    ensures Blank(c, [StartEntry(c, index)] + DefEntries(c, channels))
    decreases |channels|
  {
    hide StartEntry, StoredDef, Blank, Usable;
    var start := StartEntry(c, index);
    if channels == [] {
      BlankStart(c, index);
      assert [start] + DefEntries(c, channels) == [] + [start];
    } else {
      var n := |channels| - 1;
      FreshEntries(c, index, channels[..n]);
      var d := DefEntry(c, channels[n]);
      assert SoundChannel(channels[n], n);
      BlankSnoc(c, [start] + DefEntries(c, channels[..n]), d);
      Seqs.Regroup([start], DefEntries(c, channels[..n]), [d]);
    }
  }

  lemma FreshIsSound(c: Config, index: u32, channels: seq<ChannelDef>)
    requires Usable(c)
    requires forall i :: 0 <= i < |channels| ==> SoundChannel(channels[i], i)
    ensures SoundSegment(Fresh(c, index, channels))
    ensures Blank(c, Fresh(c, index, channels).entries)
  {
    hide Header, SoundChannel, StartEntry, DefEntries;
    FreshEntries(c, index, channels);
  }

  // ----- where the messages are -----

  function ClosedContent(closed: seq<Segment>): seq<Msg> {
    if closed == [] then []
    else ClosedContent(closed[..|closed| - 1]) + Content(closed[|closed| - 1].entries)
  }

  /** The messages in segment files, closed and current, in file order. */
  function OnDisk(L: Log): seq<Msg> { ClosedContent(L.closed) + Content(L.cur.entries) }

  function Buffered(pending: seq<seq<Msg>>, ch: u16): seq<Msg> { if ch < |pending| then pending[ch] else [] }

  /** The messages of one channel that the recording holds: those on disk, then those buffered. */
  function Held(L: Log, ch: u16): seq<Msg> { Only(OnDisk(L), ch) + Buffered(L.pending, ch) }

  /** How many messages the recording holds. */
  function Weight(L: Log): nat { |OnDisk(L)| + Total(L.pending) }

  lemma RotateKeeps(c: Config, L: Log)
    requires Good(c, L)
    ensures Good(c, Rotate(c, L))
    ensures OnDisk(Rotate(c, L)) == OnDisk(L)
    ensures !DataRange(Rotate(c, L).cur.entries).hasData
  {
    hide Fresh, Content, SoundSegment, SoundPending, SoundChannel, DataRange;
    FreshIsSound(c, SegmentNumber(|L.closed| + 1), L.channels);
    var closed := L.closed + [L.cur];
    assert closed[..|closed| - 1] == L.closed;
  }

  lemma AppendKeeps(c: Config, L: Log, e: Entry)
    requires Good(c, L) && SoundEntry(e)
    ensures Good(c, Append(L, e))
    ensures OnDisk(Append(L, e)) == OnDisk(L) + EntryMsgs(e)
  {
    hide Content, SoundPending, SoundChannel, Usable, SoundEntry, SoundHeader;
    SoundAppend(L.cur.entries, e);
    Snoc(c, L.cur.entries, e);
    Seqs.Regroup(ClosedContent(L.closed), Content(L.cur.entries), EntryMsgs(e));
  }

  /** Flushing moves the buffered messages of one channel to the end of the disk and nothing else. */
  lemma FlushOneKeeps(c: Config, L: Log, ch: nat)
    requires Good(c, L) && ch < |L.pending|
    ensures var L' := FlushOne(c, L, ch);
            && Good(c, L')
            && OnDisk(L') == OnDisk(L) + L.pending[ch]
            && L'.pending == L.pending[ch := []]
            && L'.channels == L.channels
            && L.closed <= L'.closed
  {
    hide Standard, Inverts, Inner, OnChannel, Content, DataRange, NeedsRotation, ChunkPayload, Fresh, StoredDef, ClosedContent;
    if L.pending[ch] != [] {
      var e := PendingChunk(L, ch);
      assert SoundChannel(L.channels[ch], ch) && SoundPending(L.channels[ch], L.pending[ch]);
      RotateKeeps(c, L);
      var L1 := if Refused(c, L, e) then Rotate(c, L) else L;
      AppendKeeps(c, L1, e);
      EmptyIsSound(L.channels[ch]);
    } else {
      assert OnDisk(L) + [] == OnDisk(L);
    }
  }

  lemma EmptyIsSound(d: ChannelDef)
    ensures SoundPending(d, [])
  {
  }

  lemma MovingHolds(disk: seq<Msg>, p: seq<seq<Msg>>, ch: u16, k: u16)
    requires ch < |p| && OnChannel(p[ch], ch)
    ensures Only(disk + p[ch], k) + Buffered(p[ch := []], k) == Only(disk, k) + Buffered(p, k)
    ensures |disk + p[ch]| + Total(p[ch := []]) == |disk| + Total(p)
  {
    OnlyConcat(disk, p[ch], k);
    OnlyOf(p[ch], ch, k);
    TotalUpdate(p, ch, []);
    Seqs.Regroup(Only(disk, k), Only(p[ch], k), Buffered(p[ch := []], k));
  }

  /** Flushing one channel leaves what every channel holds as it was. */
  lemma FlushOneHolds(c: Config, L: Log, ch: u16, k: u16)
    requires Good(c, L) && ch < |L.pending|
    ensures Held(FlushOne(c, L, ch), k) == Held(L, k)
    ensures Weight(FlushOne(c, L, ch)) == Weight(L)
  {
    hide Standard, Inverts, Inner, FlushOne, SoundSegment, OnDisk, Only, Total;
    FlushOneKeeps(c, L, ch);
    assert SoundPending(L.channels[ch], L.pending[ch]) && SoundChannel(L.channels[ch], ch);
    MovingHolds(OnDisk(L), L.pending, ch, k);
  }

  ghost predicate Flushed(L: Log, n: nat) { forall i :: 0 <= i < n <= |L.pending| ==> L.pending[i] == [] }

  lemma {:induction false} FlushFromKeeps(c: Config, L: Log, ch: nat)
    requires Good(c, L) && ch <= |L.pending| && Flushed(L, ch)
    ensures var L' := FlushFrom(c, L, ch);
            && Good(c, L') && Flushed(L', |L'.pending|)
            && L'.channels == L.channels && Weight(L') == Weight(L)
            && L.closed <= L'.closed
            && forall k: u16 :: Held(L', k) == Held(L, k)
    decreases |L.pending| - ch
  {
    hide Usable, SoundSegment, SoundPending, SoundChannel, FlushOne, Held, Weight;
    if ch < |L.pending| {
      SessionIdSize(c);
      var L1 := FlushOne(c, L, ch);
      FlushOneKeeps(c, L, ch);
      FlushOneHolds(c, L, ch, ch);
      forall k: u16
        ensures Held(L1, k) == Held(L, k)
      {
        FlushOneHolds(c, L, ch, k);
      }
      FlushFromKeeps(c, L1, ch + 1);
    }
  }

  lemma SessionIdSize(c: Config)
    requires Usable(c)
    ensures |c.sessionId| == 16
  {
  }

  /** Buffers joined in channel order. */
  ghost function Joined(pending: seq<seq<Msg>>): seq<Msg> { if pending == [] then [] else pending[0] + Joined(pending[1..]) }

  lemma {:induction false} FlushFromInOrder(c: Config, L: Log, ch: nat)
    requires Good(c, L) && ch <= |L.pending|
    ensures |c.sessionId| == 16 && OnDisk(FlushFrom(c, L, ch)) == OnDisk(L) + Joined(L.pending[ch..])
    decreases |L.pending| - ch
  {
    hide Good, FlushOne, OnDisk;
    SessionOf(c, L);
    if ch == |L.pending| {
      assert OnDisk(L) + [] == OnDisk(L);
    } else {
      var L1 := FlushOne(c, L, ch);
      FlushOneKeeps(c, L, ch);
      FlushFromInOrder(c, L1, ch + 1);
      assert L.pending[ch..][1..] == L.pending[ch + 1..] == L1.pending[ch + 1..];
      Seqs.Regroup(OnDisk(L), L.pending[ch], Joined(L.pending[ch + 1..]));
    }
  }

  /** Flushing everything puts what was buffered behind what is on disk, one channel after another. */
  lemma FlushAllInOrder(c: Config, L: Log)
    requires Good(c, L)
    ensures |c.sessionId| == 16 && OnDisk(FlushAll(c, L)) == OnDisk(L) + Joined(L.pending)
  {
    hide Good, OnDisk, FlushFrom;
    FlushFromInOrder(c, L, 0);
    assert L.pending[0..] == L.pending;
  }

  lemma FlushAllKeeps(c: Config, L: Log)
    requires Good(c, L)
    ensures var L' := FlushAll(c, L);
            && Good(c, L') && Flushed(L', |L'.pending|)
            && L'.channels == L.channels && Weight(L') == Weight(L)
            && L.closed <= L'.closed
            && forall k: u16 :: Held(L', k) == Held(L, k)
  {
    FlushFromKeeps(c, L, 0);
  }

  lemma RotateHolds(c: Config, L: Log)
    requires Good(c, L)
    ensures Good(c, Rotate(c, L))
    ensures forall k: u16 :: Held(Rotate(c, L), k) == Held(L, k)
    ensures Weight(Rotate(c, L)) == Weight(L)
  {
    hide Good, OnDisk;
    SessionOf(c, L);
    RotateKeeps(c, L);
  }

  lemma SessionOf(c: Config, L: Log)
    requires Good(c, L)
    ensures |c.sessionId| == 16 && |L.pending| == |L.channels| <= 0xFFFE
  {
  }

  lemma UsableOf(c: Config, L: Log)
    requires Good(c, L)
    ensures Usable(c)
  {
  }

  /** Appending a data entry adds its messages to what its channel holds; appending a control record adds nothing. */
  lemma AppendHolds(c: Config, L: Log, e: Entry)
    requires Good(c, L) && SoundEntry(e) && !e.Chunk?
    requires e.Message? ==> e.m.ch < |L.pending| && L.pending[e.m.ch] == []
    ensures Good(c, Append(L, e)) && Weight(Append(L, e)) == Weight(L) + |EntryMsgs(e)|
    ensures forall k: u16 ::
              Held(Append(L, e), k) == Held(L, k) + (if e.Message? && e.m.ch == k then [e.m] else [])
  {
    hide Good, OnDisk, SoundEntry;
    SessionOf(c, L);
    AppendKeeps(c, L, e);
    forall k: u16
      ensures Held(Append(L, e), k) == Held(L, k) + (if e.Message? && e.m.ch == k then [e.m] else [])
    {
      OnlyConcat(OnDisk(L), EntryMsgs(e), k);
      if e.Message? && e.m.ch == k {
        assert Only([e.m], k) == [e.m];
      } else {
        assert Only(EntryMsgs(e), k) == [];
      }
    }
  }

  // ----- the public operations -----

  /** What every public operation keeps. */
  ghost predicate Invariant(c: Config, L: Log) { Good(c, L) && Settled(L) }

  ghost predicate Kept(L: Log, L': Log) {
    && |L.pending| <= |L'.pending|
    && Weight(L') == Weight(L)
    && forall k: u16 :: Held(L', k) == Held(L, k)
  }

  ghost predicate Gained(L: Log, L': Log, m: Msg) {
    && |L.pending| == |L'.pending|
    && Weight(L') == Weight(L) + 1
    && forall k: u16 :: Held(L', k) == Held(L, k) + (if m.ch == k then [m] else [])
  }

  lemma FlushAllSettles(c: Config, L: Log)
    requires Good(c, L)
    ensures Invariant(c, FlushAll(c, L)) && Kept(L, FlushAll(c, L)) && Flushed(FlushAll(c, L), |L.pending|)
    ensures FlushAll(c, L).channels == L.channels
  {
    FlushAllKeeps(c, L);
  }

  lemma RotateSettles(c: Config, L: Log)
    requires Good(c, L)
    ensures Invariant(c, RotateSegment(c, L)) && Kept(L, RotateSegment(c, L)) && Flushed(RotateSegment(c, L), |L.pending|)
    ensures RotateSegment(c, L).channels == L.channels
  {
    hide Good;
    SessionOf(c, L);
    FlushAllSettles(c, L);
    RotateHolds(c, FlushAll(c, L));
  }

  lemma ChannelFacts(c: Config, L: Log, i: nat)
    requires Good(c, L) && i < |L.channels|
    ensures SoundChannel(L.channels[i], i) && SoundPending(L.channels[i], L.pending[i])
    ensures L.channels[i].id == i && OnChannel(L.pending[i], i)
    ensures L.channels[i].compression == CODEC_NONE ==> L.pending[i] == []
    ensures L.channels[i].compression <= CODEC_ZSTD && |Inner(L.pending[i])| < CHUNK_LIMIT
  {
  }

  lemma DirectGains(c: Config, L: Log, m: Msg)
    requires Invariant(c, L) && m.ch < |L.channels| && Fits(L, m)
    requires L.channels[m.ch].compression == CODEC_NONE
    ensures Invariant(c, WriteDirect(c, L, m)) && Gained(L, WriteDirect(c, L, m), m)
  {
    hide Good, NeedsRotation, RotateSegment, Held, Weight, SoundPending, SoundChannel, OnChannel;
    SessionOf(c, L);
    ChannelFacts(c, L, m.ch);
    RotateSettles(c, L);
    var L1 := if NeedsRotation(c, L.cur, m.ts, ENVELOPE_SIZE + |m.data| + CLOSING_SIZE) then RotateSegment(c, L) else L;
    SessionOf(c, L1);
    AppendHolds(c, L1, Message(m));
  }

  lemma PushedIsSound(d: ChannelDef, ms: seq<Msg>, m: Msg)
    requires SoundPending(d, ms) && d.compression != CODEC_NONE && m.ch == d.id
    requires |m.data| < 0x1_0000_0000 && |Inner(ms)| + 12 + |m.data| < CHUNK_LIMIT
    ensures SoundPending(d, ms + [m])
  {
    InnerSnoc(ms, m);
  }

  function Pushed(L: Log, m: Msg): Log
    requires m.ch < |L.pending|
  {
    L.(pending := L.pending[m.ch := L.pending[m.ch] + [m]])
  }

  lemma PushIsGood(c: Config, L: Log, m: Msg)
    requires Invariant(c, L) && m.ch < |L.channels| && Fits(L, m)
    requires L.channels[m.ch].compression != CODEC_NONE
    ensures Good(c, Pushed(L, m))
  {
    hide Usable, SoundSegment, SoundPending, SoundChannel, Inner, OnChannel;
    ChannelFacts(c, L, m.ch);
    PushedIsSound(L.channels[m.ch], L.pending[m.ch], m);
  }

  lemma PushGains(L: Log, m: Msg)
    requires m.ch < |L.pending|
    ensures Gained(L, Pushed(L, m), m)
  {
    hide ClosedContent, Content, Only, Total;
    var ms := L.pending[m.ch];
    TotalUpdate(L.pending, m.ch, ms + [m]);
    forall k: u16
      ensures Held(Pushed(L, m), k) == Held(L, k) + (if m.ch == k then [m] else [])
    {
      Seqs.Regroup(Only(OnDisk(L), k), ms, [m]);
    }
  }

  lemma FlushOneSettles(c: Config, L: Log, ch: u16)
    requires Good(c, L) && ch < |L.pending|
    requires forall i :: 0 <= i < |L.channels| && i != ch ==> L.pending[i] == [] || |Inner(L.pending[i])| < L.channels[i].chunkSize
    ensures Invariant(c, FlushOne(c, L, ch)) && Kept(L, FlushOne(c, L, ch)) && |FlushOne(c, L, ch).pending| == |L.pending|
  {
    hide Good, FlushOne, Held, Weight, Inner, OnDisk;
    SessionOf(c, L);
    FlushOneKeeps(c, L, ch);
    FlushOneHolds(c, L, ch, ch);
    forall k: u16
      ensures Held(FlushOne(c, L, ch), k) == Held(L, k)
    {
      FlushOneHolds(c, L, ch, k);
    }
  }

  lemma BufferedGains(c: Config, L: Log, m: Msg, timeUp: bool)
    requires Invariant(c, L) && m.ch < |L.channels| && Fits(L, m)
    requires L.channels[m.ch].compression != CODEC_NONE
    ensures Invariant(c, WriteBuffered(c, L, m, timeUp)) && Gained(L, WriteBuffered(c, L, m, timeUp), m)
  {
    hide Good, FlushOne, Held, Weight, Inner;
    SessionOf(c, L);
    PushIsGood(c, L, m);
    PushGains(L, m);
    FlushOneSettles(c, Pushed(L, m), m.ch);
  }

  /**
   * Write, for every state between public calls: the message is held exactly once, behind
   * everything its channel held before, and nothing else changes place.
   */
  lemma WriteGains(c: Config, L: Log, m: Msg, timeUp: bool)
    requires Invariant(c, L) && m.ch < |L.channels| && Fits(L, m)
    ensures Invariant(c, Write(c, L, m, timeUp)) && Gained(L, Write(c, L, m, timeUp), m)
  {
    hide Good, Settled, Fits, Gained, WriteDirect, WriteBuffered;
    SessionOf(c, L);
    if L.channels[m.ch].compression == CODEC_NONE {
      DirectGains(c, L, m);
    } else {
      BufferedGains(c, L, m, timeUp);
    }
  }

  lemma AnnotateKeeps(c: Config, L: Log, ts: u64, text: bytes, metadata: bytes)
    requires Invariant(c, L) && |StoredAnnotation(text, metadata)| < 0x1_0000_0000
    ensures Invariant(c, Annotate(c, L, ts, text, metadata)) && Kept(L, Annotate(c, L, ts, text, metadata))
  {
    hide Good, Held, Weight, StoredAnnotation;
    SessionOf(c, L);
    FlushAllSettles(c, L);
    AppendHolds(c, FlushAll(c, L), Annotation(ts, text, metadata));
  }

  lemma DefineIsGood(c: Config, L: Log, d: ChannelDef)
    requires Good(c, L) && |L.channels| < 0xFFFE && SoundChannel(d, |L.channels|)
    ensures Good(c, Define(c, L, d))
  {
    hide StoredDef, OnDisk, Inner, Usable, SoundHeader;
    EmptyIsSound(d);
    SoundAppend(L.cur.entries, DefEntry(c, d));
    hide SoundEntries, SoundPending, SoundChannel;
  }

  lemma DefineKeeps(c: Config, L: Log, d: ChannelDef)
    requires Invariant(c, L) && |L.channels| < 0xFFFE && SoundChannel(d, |L.channels|)
    ensures Invariant(c, Define(c, L, d)) && Kept(L, Define(c, L, d))
    ensures Define(c, L, d).pending[|L.pending|] == []
  {
    hide Good, StoredDef, ClosedContent, Content, Inner, Only;
    SessionOf(c, L);
    DefineIsGood(c, L, d);
    AppendHolds(c, L, DefEntry(c, d));
    var p := L.pending + [[]];
    assert p[..|p| - 1] == L.pending;
  }

  lemma OpenedIsSettled(c: Config)
    requires Usable(c)
    ensures Invariant(c, Opened(c)) && Weight(Opened(c)) == 0
  {
    FreshIsSound(c, 0, []);
  }
}

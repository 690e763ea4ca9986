/** What is recorded is what is played back: from calls on the recorder to messages out of the reader. */
module RoundTrip {
  import opened Bytes
  import opened Format
  import opened Routines
  import opened Stream
  import opened Index
  import opened Recording
  import opened Conservation
  import opened Runs
  import Writer
  import Seqs

  // ----- one closed segment -----

  lemma SealedIsSound(c: Config, es: seq<Entry>)
    requires SoundEntries(es)
    ensures SoundEntries(SealedEntries(c, es)) && Content(SealedEntries(c, es)) == Content(es)
  {
    hide SoundEntry, Points, DataRange, CutPoints, LE, Content;
    var index, end := IndexEntry(c, es), EndEntry(es);
    ControlsAreSound(c, es);
    SoundAppend(es, index);
    SoundAppend(es + [index], end);
    Snoc(c, es, index);
    Snoc(c, es + [index], end);
  }

  lemma ControlsAreSound(c: Config, es: seq<Entry>)
    ensures SoundEntry(IndexEntry(c, es)) && SoundEntry(EndEntry(es))
  {
  }

  /**
   * A closed segment reads back as exactly the records that were written: the walk from offset 64
   * finds them all, passes their checksums, and stops at the footer although nothing announces it.
   */
  lemma SealedReadsBack(c: Config, seg: Segment)
    requires Usable(c) && SoundSegment(seg)
    ensures var file := SealedFile(c, seg);
            && FileRecords(file) == Recs(c, SealedEntries(c, seg.entries))
            && Tail(From(file, HEADER_SIZE)) == Footer(c.lib, |FileBytes(c, seg)|, |seg.entries| + 2)
            && AllIntact(c.lib, FileRecords(file))
  {
    hide Footer, Encode, EncodeAll, Recs, SealedEntries, Content, SoundEntries, AllFramed, AllIntact, Usable, Records, Tail, Stuck;
    var es := SealedEntries(c, seg.entries);
    var footer := Footer(c.lib, |FileBytes(c, seg)|, |seg.entries| + 2);
    SealedIsSound(c, seg.entries);
    InvertsOf(c);
    RecsAreIntact(c, es);
    FooterStops(c.lib, |FileBytes(c, seg)|, |seg.entries| + 2);
    Seqs.Regroup(seg.header, Body(c, es), footer);
    Seqs.DropPrefix(seg.header, Body(c, es) + footer);
    WalkIsUnique(Recs(c, es), footer, Body(c, es) + footer);
  }

  lemma InvertsOf(c: Config)
    requires Usable(c)
    ensures Inverts(c.lib)
  {
  }

  lemma FooterStops(lib: Library, indexOffset: nat, recordCount: nat)
    ensures Stuck(Footer(lib, indexOffset, recordCount))
  {
    hide LE, Stuck;
    var t := Footer(lib, indexOffset, recordCount);
    assert t[..8] == MAGIC;
    MagicStopsTheWalk(t);
  }

  // ----- all closed segments -----

  ghost predicate SoundClosed(closed: seq<Segment>) {
    forall i :: 0 <= i < |closed| ==> SoundSegment(closed[i])
  }

  /** No compressor gives up on anything it is asked to handle. */
  ghost predicate NeverGivesUp(lib: Library) {
    forall codec: byte, raw: bytes {:trigger Compress(lib, codec, raw)} :: |raw| < CHUNK_LIMIT ==> Compress(lib, codec, raw).Some?
  }

  ghost predicate AllCompress(c: Config, es: seq<Entry>) { forall e :: e in es ==> Compresses(c, e) }

  /** No chunk in these segments had to be stored raw. */
  ghost predicate ChunksCompressed(c: Config, closed: seq<Segment>) {
    forall i :: 0 <= i < |closed| ==> AllCompress(c, closed[i].entries)
  }

  lemma CapableCompress(c: Config, closed: seq<Segment>)
    requires NeverGivesUp(c.lib) && SoundClosed(closed)
    ensures ChunksCompressed(c, closed)
  {
    hide Compress, Inner;
  }

  /** Reading closed segment files gives the messages of their entries, segment after segment. */
  lemma {:induction false} ClosedReadsBack(c: Config, closed: seq<Segment>)
    requires Usable(c) && SoundClosed(closed) && ChunksCompressed(c, closed)
    ensures SessionMsgs(c.lib, Writer.SealedFiles(c, closed)) == ClosedContent(closed)
    ensures Corrupt(c.lib, SessionRecords(Writer.SealedFiles(c, closed))) == 0
    decreases |closed|
  {
    hide SealedFile, FileRecords, Content, Usable, SoundSegment, RecMsgs, RecCorrupt, AllCompress;
    if closed != [] {
      var n := |closed| - 1;
      var files := Writer.SealedFiles(c, closed[..n]);
      var f := SealedFile(c, closed[n]);
      ClosedReadsBack(c, closed[..n]);
      SegmentMsgs(c, closed[n]);
      SessionSnoc(files, f);
      MsgsConcat(c.lib, SessionRecords(files), FileRecords(f));
    }
  }

  lemma SegmentMsgs(c: Config, seg: Segment)
    requires Usable(c) && SoundSegment(seg) && AllCompress(c, seg.entries)
    ensures Msgs(c.lib, FileRecords(SealedFile(c, seg))) == Content(seg.entries)
    ensures Corrupt(c.lib, FileRecords(SealedFile(c, seg))) == 0
  {
    hide SealedFile, FileRecords, Content, SoundEntries, Usable, Points, DataRange, StoredPoints, Compress;
    InvertsOf(c);
    SealedReadsBack(c, seg);
    SealedIsSound(c, seg.entries);
    var es := SealedEntries(c, seg.entries);
    RecsReadBack(c, es);
  }

  // ----- whole sessions -----

  function SessionFiles(c: Config, calls: seq<Call>): seq<bytes>
    requires |c.sessionId| == 16
  {
    Writer.SealedFiles(c, Closing(c, Run(c, Opened(c), calls)))
  }

  /** The files of a closed session hold exactly what the recording held on disk after the last flush. */
  lemma FilesReadBack(c: Config, calls: seq<Call>)
    requires Usable(c) && AllAllowed(c, Opened(c), calls)
    requires ChunksCompressed(c, Closing(c, Run(c, Opened(c), calls)))
    ensures var L := FlushAll(c, Run(c, Opened(c), calls));
            && SessionMsgs(c.lib, SessionFiles(c, calls)) == OnDisk(L)
            && Corrupt(c.lib, SessionRecords(SessionFiles(c, calls))) == 0
            && Flushed(L, |L.pending|)
            && forall k: u16 :: Held(L, k) == Only(Accepted(c, Opened(c), calls), k)
  {
    hide SealedFile, AllCompress, Held, AllAllowed, Accepted, FlushAll, Opened, Standard, Inverts, Content, SoundSegment;
    var L0 := Opened(c);
    OpenedIsSettled(c);
    OpenedHolds(c);
    RunKeeps(c, L0, calls);
    var L1 := Run(c, L0, calls);
    FlushAllSettles(c, L1);
    var L := FlushAll(c, L1);
    var closed := L.closed + [L.cur];
    assert closed[..|closed| - 1] == L.closed;
    GoodIsSound(c, L);
    ClosedReadsBack(c, closed);
    forall k: u16
      ensures Held(L, k) == Only(Accepted(c, L0, calls), k)
    {
      assert Held(L0, k) == [];
      assert [] + Only(Accepted(c, L0, calls), k) == Only(Accepted(c, L0, calls), k);
    }
  }

  lemma OpenedHolds(c: Config)
    requires Usable(c)
    ensures Shaped(c, Opened(c)) && OnDisk(Opened(c)) == [] && forall k: u16 :: Held(Opened(c), k) == []
  {
    FreshIsSound(c, 0, []);
    hide Fresh;
  }

  lemma GoodIsSound(c: Config, L: Log)
    requires Good(c, L)
    ensures SoundClosed(L.closed + [L.cur])
  {
    hide SoundSegment, SoundChannel, SoundPending;
  }

  lemma ClosingIsSound(c: Config, calls: seq<Call>)
    requires Usable(c) && AllAllowed(c, Opened(c), calls)
    ensures SoundClosed(Closing(c, Run(c, Opened(c), calls)))
  {
    hide Good, SoundSegment, FlushAll, Opened, Usable, Held, Weight;
    OpenedIsSettled(c);
    OpenedHolds(c);
    RunKeeps(c, Opened(c), calls);
    FlushAllSettles(c, Run(c, Opened(c), calls));
    GoodIsSound(c, FlushAll(c, Run(c, Opened(c), calls)));
  }

  /**
   * The round trip: for every sequence of calls between Open and Close, with every rotation by size,
   * by duration, on request or after a refused chunk, reading the session files delivers on each
   * channel exactly the messages whose Write returned Ok, in the order they were written.
   */
  lemma ReplayedByChannel(c: Config, calls: seq<Call>, k: u16)
    requires Usable(c) && AllAllowed(c, Opened(c), calls)
    requires ChunksCompressed(c, Closing(c, Run(c, Opened(c), calls)))
    ensures Only(SessionMsgs(c.lib, SessionFiles(c, calls)), k) == Only(Accepted(c, Opened(c), calls), k)
  {
    hide SessionFiles, ChunksCompressed, AllAllowed, Accepted, FlushAll, Fresh, OnDisk, Only, SessionMsgs;
    var L := FlushAll(c, Run(c, Opened(c), calls));
    FilesReadBack(c, calls);
    assert Buffered(L.pending, k) == [];
    assert Only(OnDisk(L), k) + [] == Only(OnDisk(L), k);
  }

  /** Compressors that never give up meet the condition of the round trip in every run. */
  lemma CapableRunsCompress(c: Config, calls: seq<Call>)
    requires Usable(c) && AllAllowed(c, Opened(c), calls) && NeverGivesUp(c.lib)
    ensures ChunksCompressed(c, Closing(c, Run(c, Opened(c), calls)))
  {
    hide NeverGivesUp, AllAllowed, Fresh, FlushAll, ChunksCompressed;
    ClosingIsSound(c, calls);
    CapableCompress(c, Closing(c, Run(c, Opened(c), calls)));
  }

  /**
   * A compressor that gives up costs the chunk: the raw bytes are stored under the codec's label. If
   * the decompressor rejects them, the chunk comes back exactly when it was compressed, and
   * otherwise it is lost as a whole and counted as corrupt.
   */
  lemma FallbackIsLost(c: Config, ch: u16, codec: byte, msgs: seq<Msg>)
    requires Usable(c) && SoundEntry(Chunk(ch, codec, msgs))
    requires Compress(c.lib, codec, Inner(msgs)).None? ==> Decompress(c.lib, codec, Inner(msgs), |Inner(msgs)|).None?
    ensures var r := ToRec(c, Chunk(ch, codec, msgs));
            && (RecMsgs(c.lib, r) == msgs <==> Compresses(c, Chunk(ch, codec, msgs)))
            && (RecMsgs(c.lib, r) == [] <==> !Compresses(c, Chunk(ch, codec, msgs)))
            && (RecCorrupt(c.lib, r) == 1 <==> !Compresses(c, Chunk(ch, codec, msgs)))
  {
    hide Inner, Unpack, Head, Intact, ChunkPayload, Decompress, Compress, OnChannel, U32;
    var e := Chunk(ch, codec, msgs);
    InvertsOf(c);
    RecordIsIntact(c, e);
    if Compresses(c, e) {
      RecordReadsBack(c, e);
    } else {
      ChunkFields(c.lib, codec, msgs);
      PayloadSize(c.lib, codec, msgs);
    }
  }

  lemma PayloadSize(lib: Library, codec: byte, msgs: seq<Msg>)
    ensures |ChunkPayload(lib, codec, msgs)| >= CHUNK_HEADER_SIZE
  {
  }

  // ----- the order across channels -----

  /** No channel is compressed and no segment holds a chunk. */
  ghost predicate Uncompressed(L: Log) {
    && (forall i :: 0 <= i < |L.channels| ==> L.channels[i].compression == CODEC_NONE)
    && (forall i :: 0 <= i < |L.closed| ==> NoChunks(L.closed[i].entries))
    && NoChunks(L.cur.entries)
  }

  ghost predicate NoChunks(es: seq<Entry>) { forall e :: e in es ==> !e.Chunk? }

  lemma {:induction false} FreshHasNoChunks(c: Config, index: u32, channels: seq<ChannelDef>)
    requires |c.sessionId| == 16
    ensures NoChunks(Fresh(c, index, channels).entries)
    decreases |channels|
  {
    hide Header, StoredDef;
    if channels != [] {
      FreshHasNoChunks(c, index, channels[..|channels| - 1]);
    }
  }

  ghost predicate DefinesUncompressed(calls: seq<Call>) {
    forall call :: call in calls && call.DefineChannel? ==> call.config.compression == CODEC_NONE
  }

  lemma NothingPends(c: Config, L: Log)
    requires Good(c, L) && Uncompressed(L)
    ensures Flushed(L, |L.pending|)
  {
    forall i | 0 <= i < |L.pending|
      ensures L.pending[i] == []
    {
      ChannelFacts(c, L, i);
    }
  }

  lemma {:induction false} NothingToFlush(c: Config, L: Log, ch: nat)
    requires Shaped(c, L) && Flushed(L, |L.pending|) && ch <= |L.pending|
    ensures FlushFrom(c, L, ch) == L
    decreases |L.pending| - ch
  {
    hide PendingChunk, Refused, Rotate;
    if ch < |L.pending| {
      NothingToFlush(c, L, ch + 1);
    }
  }

  lemma CallKeepsOrder(c: Config, L: Log, call: Call)
    requires Invariant(c, L) && Shaped(c, L) && Allowed(L, call) && Uncompressed(L)
    requires call.DefineChannel? ==> call.config.compression == CODEC_NONE
    ensures Uncompressed(After(c, L, call)) && OnDisk(After(c, L, call)) == OnDisk(L) + Taken(L, call)
  {
    hide Good, Settled, OnDisk, StoredDef, StoredAnnotation, NeedsRotation, Fits, Fresh;
    NothingPends(c, L);
    NothingToFlush(c, L, 0);
    RotateOrder(c, L);
    FreshHasNoChunks(c, SegmentNumber(|L.closed| + 1), L.channels);
    match call
    case DefineChannel(d) =>
      if !(d.name == [] || Named(L.channels, d.name) || |L.channels| >= 0xFFFE) {
        NumberedIsSound(d, |L.channels|);
        DefineOrder(c, L, d.(id := |L.channels|));
      }
    case WriteMessage(m, timeUp) =>
      if m.ch < |L.channels| {
        FitsData(L, m);
        AppendKeeps(c, L, Message(m));
        AppendKeeps(c, Rotate(c, L), Message(m));
      }
    case AddAnnotation(ts, text, metadata) => AppendKeeps(c, L, Annotation(ts, text, metadata));
    case FlushBuffers =>
    case RotateNow =>
  }

  lemma RotateOrder(c: Config, L: Log)
    requires Good(c, L)
    ensures Good(c, Rotate(c, L)) && OnDisk(Rotate(c, L)) == OnDisk(L)
    ensures OnDisk(L) + [] == OnDisk(L)
  {
    RotateKeeps(c, L);
  }

  lemma DefineOrder(c: Config, L: Log, d: ChannelDef)
    requires Good(c, L) && SoundChannel(d, |L.channels|)
    ensures OnDisk(Define(c, L, d)) == OnDisk(L)
  {
    hide Good, StoredDef, Content, ClosedContent;
    AppendKeeps(c, L, DefEntry(c, d));
    assert OnDisk(L) + [] == OnDisk(L);
  }

  lemma FitsData(L: Log, m: Msg)
    requires m.ch < |L.channels| && Fits(L, m)
    ensures SoundEntry(Message(m))
  {
  }

  lemma {:induction false} RunKeepsOrder(c: Config, L: Log, calls: seq<Call>)
    requires Invariant(c, L) && Shaped(c, L) && AllAllowed(c, L, calls) && Uncompressed(L) && DefinesUncompressed(calls)
    ensures Uncompressed(Run(c, L, calls)) && OnDisk(Run(c, L, calls)) == OnDisk(L) + Accepted(c, L, calls)
    decreases |calls|
  {
    hide Invariant, Uncompressed, OnDisk, After, Taken, Allowed;
    if calls == [] {
      assert OnDisk(L) + [] == OnDisk(L);
    } else {
      CallKeeps(c, L, calls[0]);
      CallKeepsOrder(c, L, calls[0]);
      var L1 := After(c, L, calls[0]);
      RunKeepsOrder(c, L1, calls[1..]);
      Seqs.Regroup(OnDisk(L), Taken(L, calls[0]), Accepted(c, L1, calls[1..]));
    }
  }

  lemma RawIsCompressed(c: Config, L: Log)
    requires Uncompressed(L)
    ensures ChunksCompressed(c, L.closed + [L.cur])
  {
    hide Compress;
  }

  /** When no channel is compressed, the whole stream comes back in the global order of the calls. */
  lemma ReplayedInOrder(c: Config, calls: seq<Call>)
    requires Usable(c) && AllAllowed(c, Opened(c), calls) && DefinesUncompressed(calls)
    ensures SessionMsgs(c.lib, SessionFiles(c, calls)) == Accepted(c, Opened(c), calls)
  {
    hide SessionFiles, AllAllowed, Accepted, Usable, SessionMsgs, OnDisk, DefinesUncompressed, Content, Fresh;
    OpenedIsSettled(c);
    OpenedHolds(c);
    FreshHasNoChunks(c, 0, []);
    RunKeepsOrder(c, Opened(c), calls);
    RunKeeps(c, Opened(c), calls);
    var L := Run(c, Opened(c), calls);
    NothingPends(c, L);
    NothingToFlush(c, L, 0);
    RawIsCompressed(c, L);
    FilesReadBack(c, calls);
    assert [] + Accepted(c, Opened(c), calls) == Accepted(c, Opened(c), calls);
  }
}

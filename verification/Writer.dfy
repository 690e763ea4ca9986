/** The recorder session: segment files, counters, index and buffers, kept in step with an abstract recording. */
module Writer {
  import opened Bytes
  import opened Format
  import opened Outcomes
  import opened Routines
  import opened Stream
  import opened Index
  import opened Recording
  import opened Lookup
  import opened Accumulator
  import opened Conservation
  import Crc
  import Integrity
  import Limits
  import Seqs

  function SealedFiles(c: Config, closed: seq<Segment>): (files: seq<bytes>)
    ensures |files| == |closed|
  {
    if closed == [] then [] else SealedFiles(c, closed[..|closed| - 1]) + [SealedFile(c, closed[|closed| - 1])]
  }

  function Infos(c: Config, closed: seq<Segment>): (infos: seq<SegmentInfo>)
    ensures |infos| == |closed|
  {
    if closed == [] then [] else Infos(c, closed[..|closed| - 1]) + [Info(c, |closed| - 1, closed[|closed| - 1])]
  }

  /** The recording between CloseSegment and OpenSegment: the closed segment is on file, the next has nothing yet. */
  function Shut(L: Log): Log {
    L.(closed := L.closed + [L.cur], cur := Segment(L.cur.header, []))
  }

  /** Open ignores the rotation limits of a single-file session. */
  function Normalised(c: Config): Config {
    if c.singleFile then c.(maxBytes := 0, maxDurationNs := 0) else c
  }

  /** Every accepted message is held exactly once, in the order of its channel. */
  ghost predicate Accounts(L: Log, accepted: seq<Msg>) {
    && Weight(L) == |accepted|
    && (forall m :: m in accepted ==> m.ch < |L.pending|)
    && forall k: u16 :: Held(L, k) == Only(accepted, k)
  }

  /** The per-channel counters count the accepted messages. */
  ghost predicate Counts(written: seq<nat>, n: nat, accepted: seq<Msg>) {
    && |written| == n
    && forall k: u16 :: k < n ==> written[k] == |Only(accepted, k)|
  }

  ghost predicate OnFile(c: Config, closed: seq<Segment>, files: seq<bytes>, infos: seq<SegmentInfo>) {
    files == SealedFiles(c, closed) && infos == Infos(c, closed)
  }

  /** An accumulator slot, its flag and its timestamps agree with what is pending on the channel. */
  ghost predicate Matches(a: ChunkAccumulator?, d: ChannelDef, ms: seq<Msg>, hasData: bool, firstTs: u64, lastTs: u64)
    reads a
  {
    && (a != null <==> d.compression != CODEC_NONE)
    && (a != null ==> a.Holds(d, ms))
    && (hasData <==> ms != [])
    && (ms != [] ==> firstTs == FirstTs(ms) && lastTs == LastTs(ms))
  }

  /** Every slot agrees with its channel, and no two channels share an accumulator. */
  ghost predicate Buffers(
    accums: seq<ChunkAccumulator?>, channels: seq<ChannelDef>, pending: seq<seq<Msg>>,
    hasData: seq<bool>, firstTs: seq<u64>, lastTs: seq<u64>)
    reads accums
  {
    && |accums| == |channels| == |pending| == |hasData| == |firstTs| == |lastTs|
    && (forall i :: 0 <= i < |accums| ==> Matches(accums[i], channels[i], pending[i], hasData[i], firstTs[i], lastTs[i]))
    && (forall i, j :: 0 <= i < j < |accums| && accums[i] != null ==> accums[i] != accums[j])
  }

  /** Before the first segment is opened. */
  function Unopened(c: Config): Log
    requires |c.sessionId| == 16
  {
    Log([], [], Segment(Header(c, 0, []), []), [])
  }

  lemma NothingYet(L: Log)
    requires L.channels == [] && L.pending == []
    ensures Settled(L) && Counts([], 0, [])
  {
  }

  lemma UnopenedIsSteady(c: Config)
    requires Usable(c)
    ensures var L := Unopened(c);
            L.channels == [] && L.pending == [] && L.closed == [] && L.cur.entries == [] && SegmentNumber(|L.closed|) == 0
    ensures Good(c, Unopened(c)) && Accounts(Unopened(c), [])
  {
    hide Header;
    var h := Header(c, 0, []);
  }

  class RecorderSession {
    const Cfg: Config
    const Table: seq<bv32>

    var Channels: seq<ChannelDef>
    var Segments: seq<SegmentInfo>
    var Files: seq<bytes>

    var SegOpen: bool
    var SegFile: bytes
    var SegIdx: u32
    const Idx: IndexBuilder

    var Accums: seq<ChunkAccumulator?>
    var AccumFirstTs: seq<u64>
    var AccumLastTs: seq<u64>
    var AccumHasData: seq<bool>

    var RecordCount: nat
    var SegStartNs: u64
    var SegLastNs: u64
    var SegHasData: bool

    var MsgWritten: seq<nat>

    ghost var L: Log
    /** Every message whose Write returned Ok, in call order. */
    ghost var Accepted: seq<Msg>

    // ----- the relation between the fields and the recording -----

    /** The fields of the current segment are those of the recording's current segment. */
    ghost predicate InSegment()
      reads this`SegOpen, this`SegIdx, this`SegFile, this`RecordCount, this`SegHasData, this`SegStartNs, this`SegLastNs, this`L, Idx
    {
      && SegOpen
      && SegIdx == SegmentNumber(|L.closed|)
      && SegFile == FileBytes(Cfg, L.cur)
      && RecordCount == |L.cur.entries|
      && Range(SegHasData, SegStartNs, SegLastNs) == DataRange(L.cur.entries)
      && Idx.Points == Points(Cfg, L.cur.entries)
    }

    /** What holds whether or not a segment is open. */
    ghost predicate Steady()
      reads this`L, this`Channels, this`Files, this`Segments, this`Accums, this`AccumHasData, this`AccumFirstTs, this`AccumLastTs, this`Accepted
      reads Idx, Accums
    {
      && Crc.IsTable(Table)
      && Good(Cfg, L) && Channels == L.channels
      && Idx.Valid() && Idx.Interval == Cfg.intervalNs
      && OnFile(Cfg, L.closed, Files, Segments)
      && Buffers(Accums, Channels, L.pending, AccumHasData, AccumFirstTs, AccumLastTs)
      && Accounts(L, Accepted)
    }

    ghost predicate Sound()
      reads this, Idx, Accums
    {
      Steady() && InSegment()
    }

    /** The state between public calls. */
    ghost predicate Valid()
      reads this, Idx, Accums
    {
      Sound() && Counts(MsgWritten, |Channels|, Accepted) && Settled(L)
    }

    lemma Facts()
      requires Steady()
      ensures Good(Cfg, L) && Usable(Cfg) && |Cfg.sessionId| == 16 && Channels == L.channels
      ensures |L.pending| == |L.channels| == |Accums| == |AccumHasData| == |AccumFirstTs| == |AccumLastTs| <= 0xFFFE
      ensures Weight(L) == |Accepted|
    {
    }

    lemma Slot(i: nat)
      requires Steady() && i < |Channels|
      ensures i < |Accums| && (Accums[i] != null <==> L.channels[i].compression != CODEC_NONE)
    {
    }

    lemma ChannelCount()
      requires Valid()
      ensures Channels == L.channels
    {
    }

    lemma OnFileNow()
      requires Steady()
      ensures Files == SealedFiles(Cfg, L.closed) && Segments == Infos(Cfg, L.closed)
    {
    }

    constructor (config: Config)
      requires Usable(config)
      ensures Steady() && !SegOpen && Cfg == config
      ensures L == Unopened(config) && Accepted == [] && Channels == [] && MsgWritten == []
      ensures fresh(Idx) && Accums == []
    {
      hide Good, Accounts, Crc.IsTable, Unopened, Inverts, Standard;
      UnopenedIsSteady(config);
      Cfg := config;
      var table := Crc.BuildTable();
      Table := table;
      var idx := new IndexBuilder(config.intervalNs);
      Idx := idx;
      Channels, Segments, Files, SegOpen, SegFile, SegIdx := [], [], [], false, [], 0;
      Accums, AccumFirstTs, AccumLastTs, AccumHasData := [], [], [], [];
      RecordCount, SegStartNs, SegLastNs, SegHasData := 0, 0, 0, false;
      MsgWritten := [];
      Accepted := [];
      L := Unopened(config);
    }

    /** Open: a session with its first segment started. */
    static method Open(config: Config) returns (r: RecorderSession)
      requires |config.sessionId| == 16 && |config.version| < 0x1_0000 && Standard(config.lib) && Inverts(config.lib)
      ensures r.Valid() && r.Cfg == Normalised(config)
      ensures |r.Cfg.sessionId| == 16 && r.L == Opened(r.Cfg) && r.Accepted == []
      ensures fresh(r) && fresh(r.Idx) && r.Accums == []
    {
      hide Good, Inverts, Standard, Header, Fresh, Counts, Settled;
      var c := Normalised(config);
      UnopenedIsSteady(c);
      r := new RecorderSession(c);
      NothingYet(r.L);
      r.OpenSegment(0);
      NothingYet(r.L);
    }

    // ----- records -----

    method WriteRecord(op: byte, ch: u16, ts: u64, data: bytes)
      requires Crc.IsTable(Table) && Usable(Cfg) && |data| < 0x1_0000_0000
      modifies this`SegFile, this`RecordCount
      ensures SegFile == old(SegFile) + Encode(Stamp(Cfg, op, ch, false, ts, data))
      ensures RecordCount == old(RecordCount) + 1
    {
      hide Crc.IsTable, Inverts, LE, Head, Encode, Stamp, Bare;
      var env := Bare(Cfg, op, ch, false, ts, data);
      var sum: u32 := 0;
      if Cfg.crcEnabled {
        var crc := Crc.Crc32(Table, Head(env), 0);
        if |data| > 0 {
          crc := Crc.Crc32(Table, data, crc);
        }
        sum := ChecksumOfParts(Cfg.lib, Head(env), data, crc);
      }
      StampedBytes(Cfg, op, ch, false, ts, data, sum);
      SegFile := SegFile + (Head(env) + LE(sum, 4));
      SegFile := SegFile + data;
      Seqs.Regroup(old(SegFile), Head(env) + LE(sum, 4), data);
      RecordCount := RecordCount + 1;
    }

    /** Writes a CHUNK record, checksummed in three pieces, and offers it to the index. */
    method WriteChunkRecord(ch: u16, firstTs: u64, codec: byte, uncompBytes: u32, recCount: u32, payload: bytes)
      requires Crc.IsTable(Table) && Usable(Cfg) && Idx.Valid() && CHUNK_HEADER_SIZE + |payload| < 0x1_0000_0000
      modifies this`SegFile, this`RecordCount, Idx
      ensures SegFile == old(SegFile) + Encode(Stamp(Cfg, OP_CHUNK, ch, true, firstTs, ChunkHead(codec, uncompBytes, recCount) + payload))
      ensures RecordCount == old(RecordCount) + 1
      ensures Idx.Valid() && Idx.Points == AddIfDue(Idx.Interval, old(Idx.Points), SeekPoint(ch, firstTs, old(|SegFile|)))
    {
      hide Crc.IsTable, Inverts, LE, Head, Encode, Stamp, Bare, AddIfDue, ChunkHead;
      var chdr := ChunkHead(codec, uncompBytes, recCount);
      var offset := |SegFile|;
      var env := Bare(Cfg, OP_CHUNK, ch, true, firstTs, chdr + payload);
      var sum: u32 := 0;
      if Cfg.crcEnabled {
        var crc := Crc.Crc32(Table, Head(env), 0);
        crc := Crc.Crc32(Table, chdr, crc);
        Crc.Chaining(0, Head(env), chdr);
        if |payload| > 0 {
          crc := Crc.Crc32(Table, payload, crc);
        }
        sum := ChecksumOfParts(Cfg.lib, Head(env) + chdr, payload, crc);
        Seqs.Regroup(Head(env), chdr, payload);
      }
      StampedBytes(Cfg, OP_CHUNK, ch, true, firstTs, chdr + payload, sum);
      SegFile := SegFile + (Head(env) + LE(sum, 4));
      SegFile := SegFile + chdr;
      SegFile := SegFile + payload;
      Seqs.Regroup(old(SegFile) + (Head(env) + LE(sum, 4)), chdr, payload);
      Seqs.Regroup(old(SegFile), Head(env) + LE(sum, 4), chdr + payload);
      RecordCount := RecordCount + 1;
      Idx.MaybeAdd(ch, firstTs, offset);
    }

    // ----- segment lifecycle -----

    method WriteFileHeader()
      requires Usable(Cfg)
      modifies this`SegFile
      ensures SegFile == old(SegFile) + Header(Cfg, SegIdx, Channels)
    {
      var anyCompressed := exists d | d in Channels :: d.compression != CODEC_NONE;
      var flags: u16 := (if anyCompressed then FILE_FLAG_COMPRESSION else 0) + (if Cfg.crcEnabled then FILE_FLAG_CRC else 0);
      SegFile := SegFile + (MAGIC + [1, 0] + Cfg.sessionId + LE(SegIdx, 4) + LE(Cfg.createdAtNs, 8) + LE(flags, 2) + seq(24, _ => 0));
    }

    method WriteSessionStartRecord()
      requires Crc.IsTable(Table) && Usable(Cfg)
      modifies this`SegFile, this`RecordCount
      ensures SegFile == old(SegFile) + Encode(ToRec(Cfg, StartEntry(Cfg, SegIdx)))
      ensures RecordCount == old(RecordCount) + 1
    {
      hide Crc.IsTable, Usable, Stamp, Encode, Text, Digits;
      StartIsSound(Cfg, SegIdx);
      var payload := Text("{\"recorder_version\":\"") + Cfg.version + Text("\",\"segment_index\":") + Digits(SegIdx) + Text("}");
      WriteRecord(OP_SESSION_START, INVALID_CHANNEL, Cfg.createdAtNs, payload);
    }

    method WriteChannelDefRecord(d: ChannelDef)
      requires Crc.IsTable(Table) && Usable(Cfg) && |StoredDef(d)| < 0x1_0000_0000
      modifies this`SegFile, this`RecordCount
      ensures SegFile == old(SegFile) + Encode(ToRec(Cfg, DefEntry(Cfg, d)))
      ensures RecordCount == old(RecordCount) + 1
    {
      hide Crc.IsTable, Usable, LE, Stamp, Encode;
      var buf := LE(d.id, 2) + [d.layer, d.compression] + LE(d.chunkSize, 4) + LE(d.flushMs, 4);
      buf := buf + (LE(|d.name| % 0x1_0000, 2) + d.name);
      buf := buf + (LE(|d.schema| % 0x1_0000, 2) + d.schema);
      buf := buf + LE(|d.metadata|, 4) + d.metadata;
      WriteRecord(OP_CHANNEL_DEF, d.id, Cfg.createdAtNs, buf);
    }

    method NoteDataRange(firstTs: u64, lastTs: u64)
      modifies this`SegHasData, this`SegStartNs, this`SegLastNs
      ensures Range(SegHasData, SegStartNs, SegLastNs) == Noted(old(Range(SegHasData, SegStartNs, SegLastNs)), firstTs, lastTs)
    {
      if !SegHasData {
        SegStartNs := firstTs;
        SegLastNs := lastTs;
        SegHasData := true;
        return;
      }
      if firstTs < SegStartNs {
        SegStartNs := firstTs;
      }
      if lastTs > SegLastNs {
        SegLastNs := lastTs;
      }
    }

    /** Re-emits every channel definition. */
    method WriteChannelDefs()
      requires Crc.IsTable(Table) && Usable(Cfg) && forall d :: d in Channels ==> |StoredDef(d)| < 0x1_0000_0000
      modifies this`RecordCount, this`SegFile
      ensures SegFile == old(SegFile) + Body(Cfg, DefEntries(Cfg, Channels))
      ensures RecordCount == old(RecordCount) + |DefEntries(Cfg, Channels)|
    {
      hide Crc.IsTable, StoredDef, Usable, ToRec, Encode, Body;
      NoBody(Cfg);
      for i := 0 to |Channels|
        invariant RecordCount == old(RecordCount) + |DefEntries(Cfg, Channels[..i])|
        invariant SegFile == old(SegFile) + Body(Cfg, DefEntries(Cfg, Channels[..i]))
      {
        ghost var defs, d := DefEntries(Cfg, Channels[..i]), DefEntry(Cfg, Channels[i]);
        WriteChannelDefRecord(Channels[i]);
        assert Channels[..i + 1][..i] == Channels[..i];
        BodyConcat(Cfg, defs, [d]);
        BodyOfOne(Cfg, d);
        Seqs.Regroup(old(SegFile), Body(Cfg, defs), Encode(ToRec(Cfg, d)));
      }
      assert Channels[..|Channels|] == Channels;
    }

    /** Header, start record and a copy of every channel definition. */
    method WriteSegmentStart()
      requires Crc.IsTable(Table) && Good(Cfg, L) && Channels == L.channels && SegFile == [] && RecordCount == 0
      modifies this`RecordCount, this`SegFile
      ensures SegFile == FileBytes(Cfg, Fresh(Cfg, SegIdx, Channels))
      ensures RecordCount == |Fresh(Cfg, SegIdx, Channels).entries|
    {
      hide Crc.IsTable, Good, Inverts, Standard, Header, StartEntry, DefEntries, StoredDef, ToRec, Encode, Body;
      DefsFit(Cfg, L);
      ghost var start, defs := [StartEntry(Cfg, SegIdx)], DefEntries(Cfg, Channels);
      WriteFileHeader();
      WriteSessionStartRecord();
      WriteChannelDefs();
      BodyOfOne(Cfg, start[0]);
      BodyConcat(Cfg, start, defs);
      Seqs.Regroup(Header(Cfg, SegIdx, Channels), Body(Cfg, start), Body(Cfg, defs));
    }

    /** Forgets what was known about the previous segment. */
    method ResetSegment(idx: u32)
      modifies this`SegIdx, this`RecordCount, this`SegStartNs, this`SegLastNs, this`SegHasData, this`SegOpen, this`SegFile, Idx
      ensures SegOpen && SegIdx == idx && RecordCount == 0 && SegFile == []
      ensures !SegHasData && SegStartNs == SegLastNs == 0
      ensures Idx.Valid() && Idx.Points == []
    {
      SegIdx := idx;
      RecordCount := 0;
      SegStartNs, SegLastNs, SegHasData := 0, 0, false;
      Idx.Reset();
      SegFile := [];
      SegOpen := true;
    }

    method OpenSegment(idx: u32)
      requires Steady() && !SegOpen && idx == SegmentNumber(|L.closed|) && L.cur.entries == []
      modifies this`SegIdx, this`RecordCount, this`SegStartNs, this`SegLastNs, this`SegHasData, this`SegOpen, this`SegFile, this`L, Idx
      ensures Sound()
      ensures L == old(L).(cur := Fresh(Cfg, idx, L.channels))
    {
      hide Crc.IsTable, Good, Matches, Accounts, OnFile, FileBytes, Fresh, DataRange, Points;
      SessionOf(Cfg, L);
      ResetSegment(idx);
      WriteSegmentStart();
      FreshKeepsAccounts(Cfg, L, idx, Accepted);
      L := L.(cur := Fresh(Cfg, idx, Channels));
      assert Steady();
    }

    /** Seals the current segment: index, end record, footer. */
    method WriteSegmentEnd()
      requires Sound()
      modifies this`RecordCount, this`SegFile
      ensures SegFile == SealedFile(Cfg, L.cur)
    {
      hide Crc.IsTable, Good, Buffers, Accounts, OnFile, Stamp, Encode, DataRange, Points, Body, LE, StoredPoints, FooterHead, SealedFile;
      ghost var es := L.cur.entries;
      ghost var index, end := IndexEntry(Cfg, es), EndEntry(es);
      UsableOf(Cfg, L);
      var indexPayload := Idx.Serialise();
      var indexOffset := |SegFile|;
      WriteRecord(OP_INDEX, INVALID_CHANNEL, SegLastNs, indexPayload[..|indexPayload| % 0x1_0000_0000]);
      assert SegFile == old(SegFile) + Encode(ToRec(Cfg, index));
      var durationNs := if SegHasData && SegLastNs >= SegStartNs then SegLastNs - SegStartNs else 0;
      WriteRecord(OP_SESSION_END, INVALID_CHANNEL, SegLastNs, LE(RecordCount, 8) + LE(durationNs, 8));
      assert SegFile == old(SegFile) + Encode(ToRec(Cfg, index)) + Encode(ToRec(Cfg, end));
      hide ToRec, IndexEntry, EndEntry, Footer;
      WriteFooter(indexOffset);
      SealedLayout(Cfg, L.cur);
    }

    method WriteFooter(indexOffset: nat)
      requires Crc.IsTable(Table) && Standard(Cfg.lib)
      modifies this`SegFile
      ensures SegFile == old(SegFile) + Footer(Cfg.lib, indexOffset, RecordCount)
    {
      var footer := Integrity.BuildFooter(Cfg.lib, Table, indexOffset, RecordCount);
      SegFile := SegFile + footer;
    }

    /** CloseSegment(false): seals the segment and records its extent in the manifest. */
    method SealSegment()
      requires Sound()
      modifies this`RecordCount, this`SegOpen, this`SegFile, this`L, this`Segments, this`Files
      ensures Steady() && !SegOpen
      ensures L == Shut(old(L))
    {
      hide Crc.IsTable, Good, Buffers, Accounts, SealedFile, DataRange, Points, FileBytes;
      WriteSegmentEnd();
      SegOpen := false;
      Files := Files + [SegFile];
      Segments := Segments + [SegmentInfo(SegIdx, SegStartNs, SegLastNs, |SegFile|)];
      ShutKeepsAccounts(Cfg, L, Accepted);
      assert (L.closed + [L.cur])[..|L.closed|] == L.closed;
      L := Shut(L);
    }

    // ----- flushing -----

    predicate NeedsRotation(ts: u64, neededBytes: nat)
      reads this
    {
      || (Cfg.maxBytes > 0 && |SegFile| + neededBytes > Cfg.maxBytes)
      || (Cfg.maxDurationNs > 0 && SegStartNs > 0 && ts >= SegStartNs && ts - SegStartNs >= Cfg.maxDurationNs)
    }

    /** The flush callback of a channel: writes the chunk, or answers ErrorFull to ask for a rotation first. */
    method OnFlush(ch: u16, payload: bytes, uncompBytes: nat, recCnt: nat) returns (st: Status)
      requires Sound() && ch < |Channels| && L.pending[ch] != []
      requires payload == Packed(Cfg.lib, Channels[ch].compression, Inner(L.pending[ch]))
      requires uncompBytes == |Inner(L.pending[ch])| && recCnt == |L.pending[ch]|
      modifies this`SegFile, this`RecordCount, this`AccumHasData, this`SegHasData, this`SegStartNs, this`SegLastNs, this`L, Idx
      ensures st == if Refused(Cfg, old(L), PendingChunk(old(L), ch)) then ErrorFull else Ok
      ensures st == ErrorFull <==>
                !Cfg.singleFile && Limits.HoldsData(old(L.cur.entries)) && Limits.Full(Cfg, old(L.cur), PendingChunk(old(L), ch))
      ensures st == ErrorFull ==> Sound() && L == old(L)
      ensures st == Ok ==> L == Append(old(L), PendingChunk(old(L), ch)) && InSegment() && Idx.Valid()
      ensures st == Ok ==> AccumHasData == old(AccumHasData)[ch := false]
    {
      hide Crc.IsTable, Good, Accounts, OnFile, Inverts, Standard, Stamp, Encode, Inner, Packed, FileBytes, DataRange, Points, AddIfDue, Noted, ChunkHead, Limits.Full, Limits.HoldsData;
      SessionOf(Cfg, L);
      UsableOf(Cfg, L);
      ChunkFits(Cfg, L, ch);
      ghost var e := PendingChunk(L, ch);
      Limits.RefusedWhenFull(Cfg, L, e);
      if !AccumHasData[ch] {
        return Ok;
      }
      var firstTs, lastTs := AccumFirstTs[ch], AccumLastTs[ch];
      var estimatedSize := ENVELOPE_SIZE + CHUNK_HEADER_SIZE + |payload| + CLOSING_SIZE;
      if !Cfg.singleFile && SegHasData && NeedsRotation(firstTs, estimatedSize) {
        return ErrorFull;
      }
      WriteChunkRecord(ch, firstTs, Channels[ch].compression, uncompBytes, recCnt, payload);
      AccumHasData := AccumHasData[ch := false];
      NoteDataRange(firstTs, lastTs);
      Appended(Cfg, L, e);
      L := Append(L, e);
      st := Ok;
    }

    /** Flush of one accumulator: nothing is forgotten unless the callback accepted it. */
    method FlushAccumulator(ch: u16) returns (st: Status)
      requires Sound() && ch < |Channels| && Accums[ch] != null
      modifies this`SegFile, this`RecordCount, this`AccumHasData, this`SegHasData, this`SegStartNs, this`SegLastNs, this`L, Idx, Accums[ch]
      ensures Sound()
      ensures st == if old(L.pending[ch]) != [] && Refused(Cfg, old(L), PendingChunk(old(L), ch)) then ErrorFull else Ok
      ensures L == if st == ErrorFull then old(L) else FlushOne(Cfg, old(L), ch)
    {
      hide Crc.IsTable, Good, Accounts, OnFile, FileBytes, DataRange, Points, Refused, Inner, Packed, Matches;
      ghost var L0 := L;
      ghost var ms := L.pending[ch];
      SessionOf(Cfg, L);
      var acc := Accums[ch];
      MatchFacts(acc, Channels[ch], ms, AccumHasData[ch], AccumFirstTs[ch], AccumLastTs[ch]);
      if |acc.Buffer| == 0 {
        EmptyInner(ms);
        return Ok;
      }
      ghost var hasData := AccumHasData;
      var payload := acc.Compressed(Cfg.lib);
      st := OnFlush(ch, payload, |acc.Buffer|, acc.RecordCount);
      if st != Ok {
        return;
      }
      Forget(ch, L0, hasData);
    }

    /** Empties the accumulator of a channel whose chunk has just been written. */
    method Forget(ch: u16, ghost L0: Log, ghost hasData: seq<bool>)
      requires InSegment() && Crc.IsTable(Table) && Good(Cfg, L0) && Channels == L.channels
      requires Idx.Valid() && Idx.Interval == Cfg.intervalNs
      requires OnFile(Cfg, L.closed, Files, Segments)
      requires Buffers(Accums, Channels, L.pending, hasData, AccumFirstTs, AccumLastTs)
      requires ch < |Channels| <= 0x1_0000 && Accums[ch] != null && AccumHasData == hasData[ch := false]
      requires Accounts(L0, Accepted)
      requires |L0.pending| == |L0.channels| <= 0xFFFE && |Cfg.sessionId| == 16
      requires L0.pending == L.pending && FlushOne(Cfg, L0, ch) == L.(pending := L.pending[ch := []])
      modifies this`L, Accums[ch]
      ensures Sound()
      ensures L == FlushOne(Cfg, L0, ch)
    {
      hide Crc.IsTable, Good, Accounts, OnFile, FileBytes, DataRange, Points, Matches, FlushOne;
      ghost var ms := L.pending[ch];
      var acc := Accums[ch];
      MatchFacts(acc, Channels[ch], ms, hasData[ch], AccumFirstTs[ch], AccumLastTs[ch]);
      acc.Clear(Channels[ch], ms);
      L := L.(pending := L.pending[ch := []]);
      FlushKeepsAccounts(Cfg, L0, ch, Accepted);
      MatchesCleared(acc, Channels[ch], AccumFirstTs[ch], AccumLastTs[ch]);
      assert Buffers(Accums, Channels, L.pending, AccumHasData, AccumFirstTs, AccumLastTs);
      assert InSegment();
      assert Steady();
    }

    /** CloseSegment(false) and OpenSegment: what a refused flush asks for. */
    method Reopen()
      requires Sound()
      modifies this`SegIdx, this`RecordCount, this`SegStartNs, this`SegLastNs, this`SegHasData, this`SegOpen, this`SegFile, this`L, this`Segments, this`Files, Idx
      ensures Sound()
      ensures L == Rotate(Cfg, old(L))
    {
      hide Steady, Good, Usable, FileBytes, Fresh, DataRange, Points, Weight;
      Facts();
      NextNumber(|L.closed|);
      var next: u32 := (SegIdx + 1) % 0x1_0000_0000;
      SealSegment();
      OpenSegment(next);
    }

    /** Flushes one accumulator; a refused chunk costs one rotation and is then accepted. */
    method FlushAccumulatorWithRotation(ch: u16) returns (st: Status)
      requires Sound() && ch < |Channels|
      modifies this`SegIdx, this`RecordCount, this`SegStartNs, this`SegLastNs, this`SegHasData, this`SegOpen, this`SegFile, this`L, this`Segments, this`Files
      modifies this`AccumHasData, Idx, Accums
      ensures Sound() && st == Ok
      ensures L == FlushOne(Cfg, old(L), ch)
    {
      hide Steady, InSegment, Good, Usable, Refused, FlushOne, Rotate, PendingChunk, Weight;
      Facts();
      NothingBuffered(Cfg, L, ch);
      Slot(ch);
      if Accums[ch] == null {
        return Ok;
      }
      ghost var goal := FlushOne(Cfg, L, ch);
      while true
        invariant Sound() && ch < |Channels|
        invariant |L.pending| == |L.channels| == |Accums| == |Channels| <= 0xFFFE && Good(Cfg, L)
        invariant Accums[ch] != null
        invariant FlushOne(Cfg, L, ch) == goal
        decreases if L.pending[ch] != [] && Refused(Cfg, L, PendingChunk(L, ch)) then 1 else 0
      {
        st := FlushAccumulator(ch);
        if st == Ok {
          return;
        }
        if st != ErrorFull || Cfg.singleFile {
          NotRefused(Cfg, L, ch);
          return;
        }
        RetrySucceeds(Cfg, L, ch);
        Reopen();
        Facts();
      }
    }

    method FlushAllAccumulators() returns (st: Status)
      requires Sound()
      modifies this`SegIdx, this`RecordCount, this`SegStartNs, this`SegLastNs, this`SegHasData, this`SegOpen, this`SegFile, this`L, this`Segments, this`Files
      modifies this`AccumHasData, Idx, Accums
      ensures Sound() && st == Ok
      ensures L == FlushAll(Cfg, old(L))
    {
      hide Steady, InSegment, Good, Usable, FlushOne, Weight;
      Facts();
      for i := 0 to |Accums|
        invariant Sound()
        invariant |Accums| == |Channels| == |L.pending| == |L.channels| <= 0xFFFE
        invariant FlushFrom(Cfg, L, i) == FlushAll(Cfg, old(L))
      {
        Facts();
        Slot(i);
        FlushOneShape(Cfg, L, i);
        if Accums[i] != null {
          st := FlushAccumulatorWithRotation(i);
          Facts();
        } else {
          NothingBuffered(Cfg, L, i);
        }
      }
      st := Ok;
    }

    // ----- the public calls -----

    method Flush() returns (st: Status)
      requires Valid()
      modifies this`SegIdx, this`RecordCount, this`SegStartNs, this`SegLastNs, this`SegHasData, this`SegOpen, this`SegFile, this`L, this`Segments, this`Files
      modifies this`AccumHasData, Idx, Accums
      ensures Valid() && st == Ok
      ensures L == FlushAll(Cfg, old(L))
    {
      hide Steady, InSegment, Good, Usable, FlushAll, Weight;
      Facts();
      FlushAllSettles(Cfg, L);
      st := FlushAllAccumulators();
    }

    method RotateSegment() returns (st: Status)
      requires Valid()
      modifies this`SegIdx, this`RecordCount, this`SegStartNs, this`SegLastNs, this`SegHasData, this`SegOpen, this`SegFile, this`L, this`Segments, this`Files
      modifies this`AccumHasData, Idx, Accums
      ensures Valid()
      ensures st == if Cfg.singleFile then ErrorInvalidArg else Ok
      ensures L == if Cfg.singleFile then old(L) else Recording.RotateSegment(Cfg, old(L))
    {
      hide Steady, InSegment, Good, Usable, FlushAll, Rotate, Weight;
      if Cfg.singleFile {
        return ErrorInvalidArg;
      }
      Facts();
      RotateSettles(Cfg, L);
      st := FlushAllAccumulators();
      Reopen();
    }

    /** Close: flushes everything and seals the last segment. */
    method Close() returns (st: Status)
      requires Valid()
      modifies this`SegIdx, this`RecordCount, this`SegStartNs, this`SegLastNs, this`SegHasData, this`SegOpen, this`SegFile, this`L, this`Segments, this`Files
      modifies this`AccumHasData, Idx, Accums
      ensures Steady() && !SegOpen && st == Ok
      ensures L == Shut(FlushAll(Cfg, old(L)))
      ensures Files == SealedFiles(Cfg, Closing(Cfg, old(L))) && Segments == Infos(Cfg, Closing(Cfg, old(L)))
    {
      hide Steady, InSegment, Good, Usable, FlushAll, Shut, Weight;
      Facts();
      st := FlushAllAccumulators();
      Facts();
      ShutCloses(L);
      SealSegment();
      OnFileNow();
    }

    method Annotate(timestampNs: u64, text: bytes, metadata: bytes) returns (st: Status)
      requires Valid()
      requires |StoredAnnotation(text, metadata)| < 0x1_0000_0000
      modifies this`SegIdx, this`RecordCount, this`SegStartNs, this`SegLastNs, this`SegHasData, this`SegOpen, this`SegFile, this`L, this`Segments, this`Files
      modifies this`AccumHasData, Idx, Accums
      ensures Valid()
      ensures st == if |text| > 0xFFFF then ErrorInvalidArg else Ok
      ensures L == if |text| > 0xFFFF then old(L) else Recording.Annotate(Cfg, old(L), timestampNs, text, metadata)
    {
      hide Steady, InSegment, Good, Usable, FlushAll, StoredAnnotation, Weight;
      if |text| > 0xFFFF {
        return ErrorInvalidArg;
      }
      Facts();
      AnnotateKeeps(Cfg, L, timestampNs, text, metadata);
      st := FlushAllAccumulators();
      WriteAnnotation(timestampNs, text, metadata);
    }

    method WriteAnnotation(timestampNs: u64, text: bytes, metadata: bytes)
      requires Sound() && |StoredAnnotation(text, metadata)| < 0x1_0000_0000
      modifies this`SegFile, this`RecordCount, this`L
      ensures Sound()
      ensures L == Append(old(L), Annotation(timestampNs, text, metadata))
    {
      hide Crc.IsTable, Good, Buffers, Accounts, OnFile, FileBytes, DataRange, Points, Stamp, Encode, LE, Inverts, Standard;
      UsableOf(Cfg, L);
      ghost var e := Annotation(timestampNs, text, metadata);
      var buf := LE(|text|, 2);
      buf := buf + text;
      buf := buf + LE(|metadata|, 4);
      buf := buf + metadata;
      WriteRecord(OP_ANNOTATION, INVALID_CHANNEL, timestampNs, buf);
      Appended(Cfg, L, e);
      ControlKeepsAccounts(Cfg, L, e, Accepted);
      L := Append(L, e);
    }

    /** A DATA record on file, offered to the index and noted in the data range. */
    method PutData(m: Msg)
      requires Crc.IsTable(Table) && Usable(Cfg) && Idx.Valid() && Idx.Interval == Cfg.intervalNs && |m.data| < 0x1_0000_0000
      modifies this`SegFile, this`RecordCount, this`SegHasData, this`SegStartNs, this`SegLastNs, Idx
      ensures Idx.Valid() && SegFile == old(SegFile) + Encode(ToRec(Cfg, Message(m))) && RecordCount == old(RecordCount) + 1
      ensures Range(SegHasData, SegStartNs, SegLastNs) == Noted(old(Range(SegHasData, SegStartNs, SegLastNs)), m.ts, m.ts)
      ensures Idx.Points == AddIfDue(Cfg.intervalNs, old(Idx.Points), SeekPoint(m.ch, m.ts, |old(SegFile)|))
    {
      hide Crc.IsTable, IndexBuilder.Valid, Noted, AddIfDue, Stamp, Encode, Inverts, Standard, Rested;
      var offset := |SegFile|;
      WriteRecord(OP_DATA, m.ch, m.ts, m.data);
      Idx.MaybeAdd(m.ch, m.ts, offset);
      NoteDataRange(m.ts, m.ts);
    }

    /** A DATA record, its index entry and its place in the data range. */
    method AppendData(m: Msg)
      requires Sound() && m.ch < |Channels| == |L.pending| && |m.data| < 0x1_0000_0000 && L.pending[m.ch] == []
      modifies this`SegFile, this`RecordCount, this`SegHasData, this`SegStartNs, this`SegLastNs, this`L, this`Accepted, Idx
      ensures Sound()
      ensures L == Append(old(L), Message(m)) && Accepted == old(Accepted) + [m]
    {
      hide Crc.IsTable, IndexBuilder.Valid, Good, Buffers, Accounts, OnFile, FileBytes, DataRange, Points, Noted, AddIfDue, ToRec, Encode, Inverts, Standard, Usable;
      UsableOf(Cfg, L);
      PutData(m);
      Appended(Cfg, L, Message(m));
      DataKeepsAccounts(Cfg, L, m, Accepted);
      L := Append(L, Message(m));
      Accepted := Accepted + [m];
      assert InSegment();
      assert Steady();
    }

    /** First and latest timestamp of the messages waiting on a channel. */
    method TrackTimestamp(m: Msg)
      requires m.ch < |AccumFirstTs| == |AccumLastTs| == |AccumHasData|
      modifies this`AccumFirstTs, this`AccumLastTs, this`AccumHasData
      ensures AccumFirstTs == if old(AccumHasData)[m.ch] then old(AccumFirstTs) else old(AccumFirstTs)[m.ch := m.ts]
      ensures AccumHasData == old(AccumHasData)[m.ch := true]
      ensures AccumLastTs == old(AccumLastTs)[m.ch := m.ts]
    {
      if !AccumHasData[m.ch] {
        AccumFirstTs := AccumFirstTs[m.ch := m.ts];
        AccumHasData := AccumHasData[m.ch := true];
      }
      AccumLastTs := AccumLastTs[m.ch := m.ts];
    }

    /** Buffers a message on a compressed channel. */
    method PushMessage(m: Msg, timeUp: bool) returns (due: bool)
      requires Sound() && Settled(L) && m.ch < |Channels| && Fits(L, m)
      requires Channels[m.ch].compression != CODEC_NONE
      modifies this`AccumFirstTs, this`AccumLastTs, this`AccumHasData, this`L, this`Accepted, Accums
      ensures Sound()
      ensures m.ch < |old(L.pending)| && L == Pushed(old(L), m) && Accepted == old(Accepted) + [m]
      ensures var d := Channels[m.ch];
              due == (|Inner(L.pending[m.ch])| >= d.chunkSize || (d.flushMs > 0 && timeUp))
    {
      hide Crc.IsTable, IndexBuilder.Valid, FileBytes, DataRange, Points, Good, Accounts, OnFile, Inner, Buffers, Fits, Settled;
      Facts();
      Slot(m.ch);
      PushKeepsAccounts(Cfg, L, m, Accepted);
      due := PushInto(m, timeUp, L.pending);
      L := Pushed(L, m);
      Accepted := Accepted + [m];
      assert InSegment();
      assert Steady();
    }

    /** Timestamps, flag and accumulator of the message's channel take the message in. */
    method PushInto(m: Msg, timeUp: bool, ghost pending: seq<seq<Msg>>) returns (due: bool)
      requires Buffers(Accums, Channels, pending, AccumHasData, AccumFirstTs, AccumLastTs)
      requires m.ch < |Channels| && Accums[m.ch] != null
      modifies this`AccumFirstTs, this`AccumLastTs, this`AccumHasData, Accums
      ensures Buffers(Accums, Channels, pending[m.ch := pending[m.ch] + [m]], AccumHasData, AccumFirstTs, AccumLastTs)
      ensures var d := Channels[m.ch];
              due == (|Inner(pending[m.ch] + [m])| >= d.chunkSize || (d.flushMs > 0 && timeUp))
    {
      hide Inner, Matches;
      ghost var ch, ms := m.ch, pending[m.ch];
      var acc := Accums[m.ch];
      MatchFacts(acc, Channels[ch], ms, AccumHasData[ch], AccumFirstTs[ch], AccumLastTs[ch]);
      TrackTimestamp(m);
      due := acc.Push(Channels[ch], ms, m, timeUp);
      MatchesPushed(acc, Channels[ch], ms, m, AccumFirstTs[ch]);
    }

    /** Write on an uncompressed channel: a DATA record, after a rotation when the segment is full. */
    method WriteData(m: Msg) returns (st: Status)
      requires Valid() && m.ch < |Channels| && Fits(L, m)
      requires Channels[m.ch].compression == CODEC_NONE
      modifies this`SegIdx, this`RecordCount, this`SegStartNs, this`SegLastNs, this`SegHasData, this`SegOpen, this`SegFile, this`L, this`Segments, this`Files
      modifies this`AccumHasData, this`Accepted, this`MsgWritten, Idx, Accums
      ensures Valid() && st == Ok
      ensures L == WriteDirect(Cfg, old(L), m)
      ensures if Limits.Full(Cfg, old(L.cur), Message(m)) then |L.closed| > |old(L.closed)| else L == Append(old(L), Message(m))
      ensures Accepted == old(Accepted) + [m]
    {
      hide Steady, Good, Usable, FileBytes, DataRange, Points, Held, Weight, Recording.RotateSegment, Settled, Fits, Counts, Limits.Full;
      Facts();
      DirectGains(Cfg, L, m);
      Limits.DirectCloses(Cfg, L, m);
      ghost var accepted := Accepted;
      var estimatedSize := ENVELOPE_SIZE + |m.data| + CLOSING_SIZE;
      DirectCase(Cfg, L, m);
      FitsSize(L, m);
      if NeedsRotation(m.ts, estimatedSize) {
        st := RotateSegment();
        Facts();
      }
      AppendData(m);
      CountsOne(MsgWritten, |Channels|, accepted, m);
      MsgWritten := MsgWritten[m.ch := MsgWritten[m.ch] + 1];
      st := Ok;
    }

    /** The flush a Push asks for, with the rotation and single retry that Write spells out. */
    method FlushDue(ch: u16) returns (st: Status)
      requires Sound() && ch < |Channels| && Accums[ch] != null
      modifies this`SegIdx, this`RecordCount, this`SegStartNs, this`SegLastNs, this`SegHasData, this`SegOpen, this`SegFile, this`L, this`Segments, this`Files
      modifies this`AccumHasData, Idx, Accums
      ensures Sound() && st == Ok
      ensures L == FlushOne(Cfg, old(L), ch)
    {
      hide Steady, InSegment, Good, Usable, Weight, FlushOne, Refused, Rotate;
      Facts();
      st := FlushAccumulator(ch);
      if st == ErrorFull && !Cfg.singleFile {
        RetrySucceeds(Cfg, L, ch);
        Reopen();
        Facts();
        st := FlushAccumulator(ch);
      } else if st == ErrorFull {
        NotRefused(Cfg, L, ch);
      }
    }

    /** Write on a compressed channel: buffered, and flushed when a threshold is reached. */
    method WriteCompressed(m: Msg, timeUp: bool) returns (st: Status)
      requires Valid() && m.ch < |Channels| && Fits(L, m)
      requires Channels[m.ch].compression != CODEC_NONE
      modifies this`SegIdx, this`RecordCount, this`SegStartNs, this`SegLastNs, this`SegHasData, this`SegOpen, this`SegFile, this`L, this`Segments, this`Files
      modifies this`AccumHasData, this`AccumFirstTs, this`AccumLastTs, this`Accepted, this`MsgWritten, Idx, Accums
      ensures Valid() && st == Ok
      ensures L == WriteBuffered(Cfg, old(L), m, timeUp)
      ensures Accepted == old(Accepted) + [m]
    {
      hide Steady, InSegment, Good, Usable, Held, Weight, FlushOne, Refused, Inner, Rotate, Settled, Fits, Counts;
      Facts();
      BufferedGains(Cfg, L, m, timeUp);
      Slot(m.ch);
      ghost var accepted := Accepted;
      var due := PushMessage(m, timeUp);
      Facts();
      st := Ok;
      if due {
        st := FlushDue(m.ch);
      }
      CountsOne(MsgWritten, |Channels|, accepted, m);
      MsgWritten := MsgWritten[m.ch := MsgWritten[m.ch] + 1];
    }

    method GetChannelDef(channelId: u16) returns (d: Option<ChannelDef>)
      requires forall i :: 0 <= i < |Channels| ==> Channels[i].id == i
      ensures d == if channelId < |Channels| then Some(Channels[channelId]) else None
    {
      for i := 0 to |Channels|
        invariant forall k :: 0 <= k < i ==> Channels[k].id != channelId
      {
        if Channels[i].id == channelId {
          return Some(Channels[i]);
        }
      }
      d := None;
    }

    method Write(channelId: u16, timestampNs: u64, data: bytes, timeUp: bool) returns (st: Status)
      requires Valid()
      requires channelId < |L.channels| ==> Fits(L, Msg(channelId, timestampNs, data))
      modifies this`SegIdx, this`RecordCount, this`SegStartNs, this`SegLastNs, this`SegHasData, this`SegOpen, this`SegFile, this`L, this`Segments, this`Files
      modifies this`AccumHasData, this`AccumFirstTs, this`AccumLastTs, this`Accepted, this`MsgWritten, Idx, Accums
      ensures Valid()
      ensures st == if channelId < |Channels| then Ok else ErrorInvalidArg
      ensures var m := Msg(channelId, timestampNs, data);
              if st == Ok then channelId < |old(L).pending| == |old(L).channels| <= 0xFFFE && |Cfg.sessionId| == 16
                               && L == Recording.Write(Cfg, old(L), m, timeUp) && Accepted == old(Accepted) + [m]
              else L == old(L) && Accepted == old(Accepted)
    {
      hide Steady, InSegment, Good, Usable, Counts, Settled, Fits, Weight, WriteDirect, WriteBuffered;
      Facts();
      IdsAreIndices(Cfg, L);
      var d := GetChannelDef(channelId);
      if d == None {
        return ErrorInvalidArg;
      }
      var m := Msg(channelId, timestampNs, data);
      if d.value.compression == CODEC_NONE {
        st := WriteData(m);
      } else {
        st := WriteCompressed(m, timeUp);
      }
    }

    /** The channel gets the next free id, which config.id does not influence. */
    method DefineChannel(config: ChannelDef) returns (st: Status, id: u16)
      requires Valid()
      requires config.compression <= CODEC_ZSTD && |StoredDef(config)| < 0x1_0000_0000
      modifies this`Channels, this`Accums, this`AccumFirstTs, this`AccumLastTs, this`AccumHasData, this`MsgWritten
      modifies this`SegFile, this`RecordCount, this`L
      ensures Valid()
      ensures old(Accums) <= Accums
      ensures forall i :: |old(Accums)| <= i < |Accums| && Accums[i] != null ==> fresh(Accums[i])
      ensures DefineOutcome(old(L), config, st, id)
      ensures L == if st == Ok && id == |old(L.channels)| then Define(Cfg, old(L), config.(id := id)) else old(L)
    {
      hide Steady, InSegment, Good, Usable, Counts, Settled, Weight, StoredDef, Define;
      Facts();
      IdsAreIndices(Cfg, L);
      id := INVALID_CHANNEL;
      if config.name == [] {
        return ErrorInvalidArg, id;
      }
      var k := FindName(Channels, config.name);
      if k < |Channels| {
        return Ok, Channels[k].id;
      }
      if |Channels| >= 0xFFFE {
        return ErrorInvalidArg, id;
      }
      StoredSize(config, |Channels|);
      id := |Channels|;
      AddChannel(config.(id := id));
      st := Ok;
    }

    /** The defined log, as far as fields repeat it: one record more, one channel more, one empty buffer more. */
    static lemma DefineShape(c: Config, L: Log, d: ChannelDef)
      requires Good(c, L)
      ensures var r := Define(c, L, d);
              && r.closed == L.closed && r.channels == L.channels + [d] && r.pending == L.pending + [[]]
              && FileBytes(c, r.cur) == FileBytes(c, L.cur) + Encode(ToRec(c, DefEntry(c, d)))
              && |r.cur.entries| == |L.cur.entries| + 1
              && DataRange(r.cur.entries) == DataRange(L.cur.entries) && Points(c, r.cur.entries) == Points(c, L.cur.entries)
    {
      hide Good, StoredDef, FileBytes, DataRange, Points, Encode, ToRec, Noted, AddIfDue;
      Appended(c, L, DefEntry(c, d));
    }

    lemma Parts()
      requires Valid()
      ensures Sound() && Steady() && Counts(MsgWritten, |Channels|, Accepted) && Settled(L)
      ensures Crc.IsTable(Table) && Accounts(L, Accepted) && OnFile(Cfg, L.closed, Files, Segments)
      ensures Idx.Valid() && Idx.Interval == Cfg.intervalNs && Idx.Points == Points(Cfg, L.cur.entries)
      ensures Buffers(Accums, Channels, L.pending, AccumHasData, AccumFirstTs, AccumLastTs)
      ensures SegOpen && SegIdx == SegmentNumber(|L.closed|) && Range(SegHasData, SegStartNs, SegLastNs) == DataRange(L.cur.entries)
    {
    }

    /** The log takes over what the file, the counters and the slots already show. */
    ghost method Adopt(L': Log)
      requires Crc.IsTable(Table) && Good(Cfg, L') && Channels == L'.channels && Accounts(L', Accepted)
      requires Idx.Valid() && Idx.Interval == Cfg.intervalNs && Idx.Points == Points(Cfg, L'.cur.entries)
      requires OnFile(Cfg, L'.closed, Files, Segments)
      requires Buffers(Accums, Channels, L'.pending, AccumHasData, AccumFirstTs, AccumLastTs)
      requires SegOpen && SegIdx == SegmentNumber(|L'.closed|) && SegFile == FileBytes(Cfg, L'.cur) && RecordCount == |L'.cur.entries|
      requires Range(SegHasData, SegStartNs, SegLastNs) == DataRange(L'.cur.entries)
      requires Counts(MsgWritten, |Channels|, Accepted) && Settled(L')
      modifies this`L
      ensures Valid() && L == L'
    {
      hide Crc.IsTable, IndexBuilder.Valid, Good, Accounts, OnFile, FileBytes, DataRange, Points, Buffers, Settled, Counts;
      L := L';
    }

    /** The CHANNEL_DEF record of a new channel. */
    method AppendDef(d: ChannelDef)
      requires Sound() && |StoredDef(d)| < 0x1_0000_0000
      modifies this`SegFile, this`RecordCount
      ensures SegFile == FileBytes(Cfg, Define(Cfg, L, d).cur) && RecordCount == |Define(Cfg, L, d).cur.entries|
    {
      hide Crc.IsTable, IndexBuilder.Valid, Good, Accounts, OnFile, FileBytes, DataRange, Points, Encode, StoredDef, Buffers, Usable, Define, DefEntry, ToRec;
      Facts();
      DefineShape(Cfg, L, d);
      WriteChannelDefRecord(d);
    }

    /** A CHANNEL_DEF record and an empty slot for a new channel. */
    method AddChannel(d: ChannelDef)
      requires Valid() && |Channels| < 0xFFFE
      requires SoundChannel(d, |Channels|)
      modifies this`Channels, this`Accums, this`AccumFirstTs, this`AccumLastTs, this`AccumHasData, this`MsgWritten
      modifies this`SegFile, this`RecordCount, this`L
      ensures Valid()
      ensures old(Accums) <= Accums
      ensures forall i :: |old(Accums)| <= i < |Accums| && Accums[i] != null ==> fresh(Accums[i])
      ensures L == Define(Cfg, old(L), d)
    {
      hide *;
      Parts();
      Facts();
      DefineKeepsAccounts(Cfg, L, d, Accepted);
      DefineShape(Cfg, L, d);
      CountsNew(MsgWritten, |Channels|, Accepted);
      DefFits(d, |Channels|);
      AppendDef(d);
      NewSlot(d, L.pending);
      Adopt(Define(Cfg, L, d));
    }

    /** EnsureVectors, and an accumulator when the channel is compressed. */
    method NewSlot(d: ChannelDef, ghost pending: seq<seq<Msg>>)
      requires Buffers(Accums, Channels, pending, AccumHasData, AccumFirstTs, AccumLastTs)
      modifies this`Channels, this`Accums, this`AccumFirstTs, this`AccumLastTs, this`AccumHasData, this`MsgWritten
      ensures Channels == old(Channels) + [d] && MsgWritten == old(MsgWritten) + [0]
      ensures Buffers(Accums, Channels, pending + [[]], AccumHasData, AccumFirstTs, AccumLastTs)
      ensures old(Accums) <= Accums
      ensures forall i :: |old(Accums)| <= i < |Accums| && Accums[i] != null ==> fresh(Accums[i])
    {
      var a: ChunkAccumulator? := null;
      if d.compression != CODEC_NONE {
        a := new ChunkAccumulator(d);
      }
      Channels := Channels + [d];
      Accums := Accums + [a];
      AccumFirstTs, AccumLastTs, AccumHasData := AccumFirstTs + [0], AccumLastTs + [0], AccumHasData + [false];
      MsgWritten := MsgWritten + [0];
    }
  }

  /** The answer of DefineChannel: an error, the channel that already has the name, or the next id. */
  ghost predicate DefineOutcome(L: Log, config: ChannelDef, st: Status, id: u16) {
    if config.name == [] then st == ErrorInvalidArg
    else if exists i :: 0 <= i < |L.channels| && L.channels[i].name == config.name then
      && st == Ok && id < |L.channels| && L.channels[id].name == config.name
      && forall i :: 0 <= i < id ==> L.channels[i].name != config.name
    else if |L.channels| >= 0xFFFE then st == ErrorInvalidArg
    else st == Ok && id == |L.channels|
  }

  lemma StoredSize(d: ChannelDef, id: u16)
    ensures |StoredDef(d.(id := id))| == |StoredDef(d)|
  {
  }

  lemma IdsAreIndices(c: Config, L: Log)
    requires Good(c, L)
    ensures forall i :: 0 <= i < |L.channels| ==> L.channels[i].id == i
  {
    hide StoredDef;
  }

  lemma NoneAccepted(L: Log, accepted: seq<Msg>)
    requires Accounts(L, accepted) && |L.pending| <= 0xFFFE
    ensures Only(accepted, |L.pending|) == []
  {
    NothingOn(accepted, |L.pending|);
  }

  lemma DefFits(d: ChannelDef, n: nat)
    requires SoundChannel(d, n)
    ensures |StoredDef(d)| < 0x1_0000_0000
  {
  }

  lemma DefineKeepsAccounts(c: Config, L: Log, d: ChannelDef, accepted: seq<Msg>)
    requires Good(c, L) && Settled(L) && |L.channels| < 0xFFFE && SoundChannel(d, |L.channels|) && Accounts(L, accepted)
    ensures Good(c, Define(c, L, d)) && Accounts(Define(c, L, d), accepted) && Settled(Define(c, L, d))
    ensures Only(accepted, |L.pending|) == []
  {
    hide Good, Only, Held, Weight, Settled;
    SessionOf(c, L);
    DefineKeeps(c, L, d);
    NoneAccepted(L, accepted);
  }

  lemma DataKeepsAccounts(c: Config, L: Log, m: Msg, accepted: seq<Msg>)
    requires Good(c, L) && m.ch < |L.pending| && L.pending[m.ch] == [] && |m.data| < 0x1_0000_0000 && Accounts(L, accepted)
    ensures Good(c, Append(L, Message(m))) && Accounts(Append(L, Message(m)), accepted + [m])
  {
    hide Good, Held, Weight, Only;
    SessionOf(c, L);
    AppendHolds(c, L, Message(m));
    forall k: u16
      ensures Only(accepted + [m], k) == Only(accepted, k) + (if m.ch == k then [m] else [])
    {
      CountOneOn(accepted, m, k);
    }
  }

  lemma PushKeepsAccounts(c: Config, L: Log, m: Msg, accepted: seq<Msg>)
    requires Good(c, L) && Settled(L) && m.ch < |L.channels| && Fits(L, m) && Accounts(L, accepted)
    requires L.channels[m.ch].compression != CODEC_NONE
    ensures Good(c, Pushed(L, m)) && Accounts(Pushed(L, m), accepted + [m])
  {
    hide Good, Settled, Fits, Held, Weight, Only;
    SessionOf(c, L);
    PushIsGood(c, L, m);
    PushGains(L, m);
    forall k: u16
      ensures Only(accepted + [m], k) == Only(accepted, k) + (if m.ch == k then [m] else [])
    {
      CountOneOn(accepted, m, k);
    }
  }

  lemma CountOneOn(accepted: seq<Msg>, m: Msg, k: u16)
    ensures Only(accepted + [m], k) == Only(accepted, k) + (if m.ch == k then [m] else [])
  {
    OnlyConcat(accepted, [m], k);
    assert Only([m], k) == (if m.ch == k then [m] else []) + Only([m][1..], k);
  }

  lemma CountsOne(written: seq<nat>, n: nat, accepted: seq<Msg>, m: Msg)
    requires Counts(written, n, accepted) && m.ch < n
    ensures |written| == n && Counts(written[m.ch := written[m.ch] + 1], n, accepted + [m])
  {
    forall k: u16
      ensures |Only(accepted + [m], k)| == |Only(accepted, k)| + (if m.ch == k then 1 else 0)
    {
      CountOneOn(accepted, m, k);
    }
  }

  lemma CountsNew(written: seq<nat>, n: nat, accepted: seq<Msg>)
    requires Counts(written, n, accepted) && n < 0xFFFF && Only(accepted, n) == []
    ensures Counts(written + [0], n + 1, accepted)
  {
  }

  lemma MatchesPushed(a: ChunkAccumulator, d: ChannelDef, ms: seq<Msg>, m: Msg, firstTs: u64)
    requires a.Holds(d, ms + [m]) && d.compression != CODEC_NONE && firstTs == FirstTs(ms + [m])
    ensures Matches(a, d, ms + [m], true, firstTs, m.ts)
  {
  }

  lemma FitsSize(L: Log, m: Msg)
    requires m.ch < |L.channels| && Fits(L, m)
    ensures |m.data| < 0x1_0000_0000
  {
  }

  lemma DirectCase(c: Config, L: Log, m: Msg)
    requires Good(c, L) && m.ch < |L.channels| && L.channels[m.ch].compression == CODEC_NONE
    requires |L.pending| == |L.channels| <= 0xFFFE && |c.sessionId| == 16
    ensures var L' := Recording.RotateSegment(c, L);
            L'.channels == L.channels && |L'.pending| == |L.pending| && L.pending[m.ch] == [] && L'.pending[m.ch] == []
    ensures c.singleFile ==> !Recording.NeedsRotation(c, L.cur, m.ts, ENVELOPE_SIZE + |m.data| + CLOSING_SIZE)
  {
    ChannelFacts(c, L, m.ch);
    RotateSettles(c, L);
  }

  lemma ShutCloses(L: Log)
    ensures Shut(L).closed == L.closed + [L.cur]
  {
  }

  lemma ControlKeepsAccounts(c: Config, L: Log, e: Entry, accepted: seq<Msg>)
    requires Good(c, L) && Accounts(L, accepted) && e.Control? && SoundEntry(e)
    ensures Good(c, Append(L, e)) && Accounts(Append(L, e), accepted)
  {
    hide Good, Held, Weight, Only;
    AppendHolds(c, L, e);
    SessionOf(c, L);
  }

  lemma NextNumber(n: nat)
    ensures SegmentNumber(n + 1) == (SegmentNumber(n) + 1) % 0x1_0000_0000
  {
  }

  /** On an uncompressed channel there is nothing to flush. */
  lemma NothingBuffered(c: Config, L: Log, ch: nat)
    requires Good(c, L) && ch < |L.pending|
    ensures L.channels[ch].compression == CODEC_NONE ==> FlushOne(c, L, ch) == L
  {
    ChannelFacts(c, L, ch);
  }

  lemma FlushOneShape(c: Config, L: Log, ch: nat)
    requires Good(c, L) && ch < |L.pending|
    ensures FlushOne(c, L, ch).channels == L.channels && |FlushOne(c, L, ch).pending| == |L.pending|
    ensures FlushFrom(c, L, ch) == FlushFrom(c, FlushOne(c, L, ch), ch + 1)
  {
    FlushOneKeeps(c, L, ch);
  }

  /** A rotation leaves a segment without data, which refuses nothing, so the retried flush goes through. */
  lemma RetrySucceeds(c: Config, L: Log, ch: nat)
    requires Good(c, L) && ch < |L.pending| && L.pending[ch] != [] && Refused(c, L, PendingChunk(L, ch))
    ensures var L' := Rotate(c, L);
            && L'.pending == L.pending && L'.channels == L.channels
            && !Refused(c, L', PendingChunk(L', ch))
            && FlushOne(c, L', ch) == FlushOne(c, L, ch)
  {
    hide Good, NeedsRotation, Fresh, DataRange;
    RotateKeeps(c, L);
  }

  lemma NotRefused(c: Config, L: Log, ch: nat)
    requires Good(c, L) && ch < |L.pending| && c.singleFile
    ensures !Refused(c, L, PendingChunk(L, ch))
  {
  }

  lemma MatchFacts(a: ChunkAccumulator, d: ChannelDef, ms: seq<Msg>, hasData: bool, firstTs: u64, lastTs: u64)
    requires Matches(a, d, ms, hasData, firstTs, lastTs)
    ensures d.compression != CODEC_NONE && a.Holds(d, ms) && (hasData <==> ms != [])
    ensures ms != [] ==> firstTs == FirstTs(ms) && lastTs == LastTs(ms)
    ensures ms == [] ==> a.Buffer == []
  {
  }

  lemma MatchesCleared(a: ChunkAccumulator, d: ChannelDef, firstTs: u64, lastTs: u64)
    requires a.Holds(d, []) && d.compression != CODEC_NONE
    ensures Matches(a, d, [], false, firstTs, lastTs)
  {
  }

  /** What appending one entry does to the file, the data range and the index points of the current segment. */
  lemma Appended(c: Config, L: Log, e: Entry)
    requires Good(c, L)
    ensures var seg, seg' := L.cur, Append(L, e).cur;
            && FileBytes(c, seg') == FileBytes(c, seg) + Encode(ToRec(c, e))
            && |seg'.entries| == |seg.entries| + 1
            && DataRange(seg'.entries) ==
               (if e.Control? then DataRange(seg.entries) else Noted(DataRange(seg.entries), FirstTs(EntryMsgs(e)), LastTs(EntryMsgs(e))))
            && Points(c, seg'.entries) ==
               (if e.Control? then Points(c, seg.entries)
                else AddIfDue(c.intervalNs, Points(c, seg.entries), SeekPoint(EntryChannel(e), FirstTs(EntryMsgs(e)), |FileBytes(c, seg)|)))
  {
    hide Good, Encode, EncodeAll, ToRec, Content, DataRange, Points, Recs, AddIfDue, Noted, FirstTs, LastTs;
    HeaderSize(c, L);
    Snoc(c, L.cur.entries, e);
    Seqs.Regroup(L.cur.header, Body(c, L.cur.entries), Encode(ToRec(c, e)));
  }

  lemma HeaderSize(c: Config, L: Log)
    requires Good(c, L)
    ensures |L.cur.header| == HEADER_SIZE
  {
  }

  lemma SealedLayout(c: Config, seg: Segment)
    ensures var es := seg.entries;
            SealedFile(c, seg) == ((seg.header + Body(c, es)) + Encode(ToRec(c, IndexEntry(c, es)))) + Encode(ToRec(c, EndEntry(es)))
                                  + Footer(c.lib, |FileBytes(c, seg)|, |es| + 2)
  {
    hide Footer, Encode, EncodeAll, ToRec, IndexEntry, EndEntry, Content, DataRange, Points;
    var es := seg.entries;
    var index, end := IndexEntry(c, es), EndEntry(es);
    Snoc(c, es, index);
    Snoc(c, es + [index], end);
    Seqs.Regroup(seg.header, Body(c, es), Encode(ToRec(c, index)));
    Seqs.Regroup(seg.header, Body(c, es + [index]), Encode(ToRec(c, end)));
  }

  lemma EmptyInner(ms: seq<Msg>)
    ensures Inner(ms) == [] ==> ms == []
  {
  }

  lemma ChunkFits(c: Config, L: Log, ch: nat)
    requires Good(c, L) && ch < |L.pending| && L.pending[ch] != []
    ensures |Inner(L.pending[ch])| < 0x1_0000_0000 && |L.pending[ch]| < 0x1_0000_0000
    ensures CHUNK_HEADER_SIZE + |Packed(c.lib, L.channels[ch].compression, Inner(L.pending[ch]))| < 0x1_0000_0000
  {
    hide Inner, Packed, OnChannel;
    ChannelFacts(c, L, ch);
    InnerCount(L.pending[ch]);
    PackedInverts(c.lib, L.channels[ch].compression, Inner(L.pending[ch]));
  }

  lemma FlushKeepsAccounts(c: Config, L: Log, ch: u16, accepted: seq<Msg>)
    requires Good(c, L) && ch < |L.pending| && |L.pending| == |L.channels| <= 0xFFFE && |c.sessionId| == 16
    requires Accounts(L, accepted)
    ensures Good(c, FlushOne(c, L, ch)) && Accounts(FlushOne(c, L, ch), accepted)
  {
    hide Good, FlushOne, Held, Weight, Only;
    FlushOneKeeps(c, L, ch);
    FlushOneHolds(c, L, ch, ch);
    forall k: u16
      ensures Held(FlushOne(c, L, ch), k) == Held(L, k)
    {
      FlushOneHolds(c, L, ch, k);
    }
  }

  lemma DefsFit(c: Config, L: Log)
    requires Good(c, L)
    ensures Usable(c) && forall d :: d in L.channels ==> |StoredDef(d)| < 0x1_0000_0000
  {
    hide StoredDef;
    forall d | d in L.channels
      ensures |StoredDef(d)| < 0x1_0000_0000
    {
      var i :| 0 <= i < |L.channels| && L.channels[i] == d;
      ChannelFacts(c, L, i);
    }
  }

  lemma NoBody(c: Config)
    ensures Body(c, []) == []
  {
  }

  lemma CurKeepsAccounts(c: Config, L: Log, seg: Segment, accepted: seq<Msg>)
    requires Good(c, L) && L.cur.entries == [] && Accounts(L, accepted)
    requires SoundSegment(seg) && Content(seg.entries) == []
    ensures Good(c, L.(cur := seg)) && Accounts(L.(cur := seg), accepted)
  {
    hide Usable, SoundPending, SoundChannel, SoundSegment, Only, Total;
    assert OnDisk(L.(cur := seg)) == OnDisk(L);
  }

  lemma FreshKeepsAccounts(c: Config, L: Log, idx: u32, accepted: seq<Msg>)
    requires Good(c, L) && L.cur.entries == [] && Accounts(L, accepted)
    ensures var L' := L.(cur := Fresh(c, idx, L.channels));
            Good(c, L') && Accounts(L', accepted)
            && Points(c, L'.cur.entries) == []
            && DataRange(L'.cur.entries) == Range(false, 0, 0)
  {
    FreshIsSound(c, idx, L.channels);
    var seg := Fresh(c, idx, L.channels);
    BlankRange(seg.entries);
    CurKeepsAccounts(c, L, seg, accepted);
  }

  lemma {:induction false} BlankRange(es: seq<Entry>)
    requires !DataRange(es).hasData
    ensures DataRange(es) == Range(false, 0, 0)
    decreases |es|
  {
    if es != [] {
      BlankRange(es[..|es| - 1]);
    }
  }

  lemma ShutKeepsAccounts(c: Config, L: Log, accepted: seq<Msg>)
    requires Good(c, L) && Accounts(L, accepted)
    ensures Good(c, Shut(L)) && Accounts(Shut(L), accepted)
  {
    hide Usable, SoundPending, SoundChannel, SoundHeader, SoundEntry;
    assert (L.closed + [L.cur])[..|L.closed|] == L.closed;
    assert OnDisk(Shut(L)) == OnDisk(L);
  }

  /** The checksum field for a checksum computed over a and then, unless it is empty, over b. */
  function ChecksumOfParts(lib: Library, ghost a: bytes, ghost b: bytes, crc: bv32): (sum: u32)
    requires Standard(lib)
    requires crc == if |b| > 0 then Crc.Update(Crc.Update(0, a), b) else Crc.Update(0, a)
    ensures sum == lib.crc32(a + b)
  {
    hide Crc.Update;
    Crc.Chaining(0, a, b);
    assert b == [] ==> a + b == a;
    assert Crc.Checksum(a + b) == crc as int;
    crc as int
  }
}

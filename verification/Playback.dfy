/** The reader: a cursor over the segments of a session that delivers one message at a time. */
module Playback {
  import opened Bytes
  import opened Format
  import opened Outcomes
  import opened Routines
  import opened Stream
  import opened Index
  import opened Recording
  import opened Opening
  import opened Seeking
  import opened Summary
  import Crc
  import Integrity
  import Seqs

  function FilesOf(segs: seq<SegmentData>): seq<bytes> {
    if segs == [] then [] else [segs[0].file] + FilesOf(segs[1..])
  }

  lemma {:induction false} FilesSnoc(segs: seq<SegmentData>, seg: SegmentData)
    ensures FilesOf(segs + [seg]) == FilesOf(segs) + [seg.file]
  {
    if segs == [] {
      assert [seg][1..] == [];
    } else {
      assert (segs + [seg])[1..] == segs[1..] + [seg];
      FilesSnoc(segs[1..], seg);
      Seqs.Regroup([segs[0].file], FilesOf(segs[1..]), [seg.file]);
    }
  }

  // ----- what opening finds -----

  /** One segment of the manifest, with its file when that can be opened. */
  datatype Source = Source(file: Option<bytes>, info: SegmentInfo)

  predicate Readable(file: bytes) { |file| >= HEADER_SIZE && file[..8] == MAGIC && file[8] == 1 }

  function Present(sources: seq<Source>): seq<Source> {
    if sources == [] then []
    else Present(sources[..|sources| - 1]) + if sources[|sources| - 1].file.Some? then [sources[|sources| - 1]] else []
  }

  predicate AllReadable(sources: seq<Source>) {
    forall i :: 0 <= i < |sources| && sources[i].file.Some? ==> Readable(sources[i].file.value)
  }

  /** The outcome of opening: one unreadable header spoils the session, absent files do not. */
  function OpenStatus(sources: seq<Source>): Status {
    if !AllReadable(sources) then ErrorCorrupted
    else if Present(sources) == [] then ErrorNotFound
    else Ok
  }

  /** The segment as opened; a zero from the scan is replaced by what the manifest says. */
  ghost predicate Placed(seg: SegmentData, source: Source)
    reads seg.idx
  {
    var rs := FileRecords(seg.file);
    && source.file == Some(seg.file)
    && seg.startNs == (if StartOf(rs) == 0 then source.info.startNs else StartOf(rs))
    && seg.endNs == (if Greatest(rs) == 0 then source.info.endNs else Greatest(rs))
    && Loaded(seg)
  }

  /** The index holds the points of the last INDEX record, sorted. */
  ghost predicate Loaded(seg: SegmentData)
    reads seg.idx
  {
    Sorted(seg.idx.Points) && multiset(seg.idx.Points) == multiset(LastIndex(FileRecords(seg.file)))
  }

  /** What a reader knows of a session is what its records say. */
  ghost predicate Says(rs: seq<Rec>, known: seq<ChannelDef>, channels: seq<ChannelDef>, annots: seq<Note>, totals: seq<nat>, strayed: bool) {
    && channels == Known(known, rs) && annots == Notes(rs) && (strayed <==> !NoneStrays(rs))
    && forall k: u16 :: CountOn(totals, k) == Declared(rs, k)
  }

  lemma SaysMore(rs: seq<Rec>, more: seq<Rec>, known: seq<ChannelDef>,
                 annots: seq<Note>, totals: seq<nat>, totals': seq<nat>, strayed: bool)
    requires Says(rs, known, Known(known, rs), annots, totals, strayed)
    requires forall k: u16 :: CountOn(totals', k) == CountOn(totals, k) + Declared(more, k)
    ensures Says(rs + more, known, Known(Known(known, rs), more), annots + Notes(more), totals',
                 strayed || !NoneStrays(more))
  {
    hide Known, Notes, Declared, CountOn, Strays;
    SaysConcat(known, rs, more);
    StraysConcat(rs, more);
  }

  function Ids(channels: seq<ChannelDef>): seq<u16> {
    if channels == [] then [] else Ids(channels[..|channels| - 1]) + [channels[|channels| - 1].id]
  }

  /** The segment Seek goes to. */
  function SeekSegment(segs: seq<SegmentData>, target: u64): (seg: nat)
    ensures segs != [] ==> Sought(segs, target, seg)
  {
    if |segs| <= 1 then 0
    else if segs[|segs| - 1].startNs <= target then |segs| - 1
    else SeekSegment(segs[..|segs| - 1], target)
  }

  /** The last segment that starts at or before the target, or the first segment. */
  predicate Sought(segs: seq<SegmentData>, target: u64, seg: nat) {
    && seg < |segs|
    && (seg > 0 ==> segs[seg].startNs <= target)
    && forall i :: seg < i < |segs| ==> segs[i].startNs > target
  }

  function Sum(totals: seq<nat>): nat {
    if totals == [] then 0 else Sum(totals[..|totals| - 1]) + totals[|totals| - 1]
  }

  // ----- the cursor -----

  /** The records from an offset in one segment to the end of the session. */
  function Ahead(segs: seq<SegmentData>, seg: nat, offset: nat): seq<Rec> {
    if seg >= |segs| then [] else Records(From(segs[seg].file, offset)) + SessionRecords(FilesOf(segs[seg + 1..]))
  }

  lemma NextSegment(segs: seq<SegmentData>, seg: nat, offset: nat)
    requires seg < |segs| && Stuck(From(segs[seg].file, offset))
    ensures Ahead(segs, seg, offset) == Ahead(segs, seg + 1, HEADER_SIZE)
  {
    if seg + 1 < |segs| {
      assert segs[seg + 1..][0] == segs[seg + 1] && segs[seg + 1..][1..] == segs[seg + 2..];
    }
  }

  lemma AheadFromStart(segs: seq<SegmentData>)
    ensures Ahead(segs, 0, HEADER_SIZE) == SessionRecords(FilesOf(segs))
  {
  }

  lemma FromStep(file: bytes, offset: nat, k: nat)
    requires k <= |From(file, offset)| && 0 < k
    ensures offset + k <= |file|
    ensures From(file, offset)[k..] == From(file, offset + k)
  {
  }

  lemma NextRecord(segs: seq<SegmentData>, seg: nat, offset: nat, s: bytes)
    requires seg < |segs| && s == From(segs[seg].file, offset) && !Stuck(s)
    ensures offset + Extent(s) <= |segs[seg].file|
    ensures Ahead(segs, seg, offset) == [Decode(s)] + Ahead(segs, seg, offset + Extent(s))
  {
    var n := Extent(s);
    FromStep(segs[seg].file, offset, n);
    assert Records(s) == [Decode(s)] + Records(s[n..]);
    Seqs.Regroup([Decode(s)], Records(s[n..]), SessionRecords(FilesOf(segs[seg + 1..])));
  }

  lemma MsgsStep(lib: Library, all: seq<Rec>, r: Rec, rs: seq<Rec>)
    requires all == [r] + rs
    ensures Msgs(lib, all) == RecMsgs(lib, r) + Msgs(lib, rs)
    ensures Corrupt(lib, all) == RecCorrupt(lib, r) + Corrupt(lib, rs)
  {
    assert all[1..] == rs;
  }

  lemma AtEnd(lib: Library, segs: seq<SegmentData>, offset: nat)
    ensures Msgs(lib, Ahead(segs, |segs|, offset)) == [] && Corrupt(lib, Ahead(segs, |segs|, offset)) == 0
  {
  }

  /** The records a seek leaves ahead of the cursor. */
  function SoughtRecords(segs: seq<SegmentData>, channels: seq<u16>, target: u64): seq<Rec>
    reads set i | 0 <= i < |segs| :: segs[i].idx
  {
    if segs == [] then []
    else
      var seg := SeekSegment(segs, target);
      Ahead(segs, seg, SeekOffset(segs[seg].idx.Points, channels, target).GetOr(HEADER_SIZE))
  }

  lemma ScanStep(o: ReadOptions, go: seq<Msg> -> bool, done: seq<Msg>, m: Msg, rest: seq<Msg>)
    ensures Scan(o, go, done, [m] + rest) ==
            if Beyond(o, m) then done
            else if !Wanted(o, m) then Scan(o, go, done, rest)
            else if !go(done + [m]) then done + [m]
            else Scan(o, go, done + [m], rest)
  {
    assert ([m] + rest)[1..] == rest;
  }

  lemma NothingToScan(o: ReadOptions, go: seq<Msg> -> bool, done: seq<Msg>)
    ensures Scan(o, go, done, []) == done
  {
  }

  lemma WantedInRange(o: ReadOptions, m: Msg)
    requires !Beyond(o, m)
    ensures Wanted(o, m) <==> (o.startNs == 0 || m.ts >= o.startNs) && (o.channels == [] || m.ch in o.channels)
  {
  }

  lemma NothingOpened(known: seq<ChannelDef>)
    ensures SessionRecords(FilesOf([])) == [] && Says([], known, known, [], [], false)
  {
  }

  lemma DescribesLoaded(seg: SegmentData, info: SegmentInfo)
    requires Readable(seg.file) && Describes(seg, Scanned(seg.file))
    ensures var rs := FileRecords(seg.file);
            && seg.startNs == StartOf(rs) && seg.endNs == Greatest(rs)
            && Loaded(seg)
    ensures Scanned(seg.file) == FileRecords(seg.file)
  {
  }

  lemma OneSource(source: Source)
    ensures Present([source]) == if source.file.Some? then [source] else []
  {
    assert [source][..0] == [];
  }

  lemma OneFile(seg: SegmentData)
    ensures FilesOf([seg]) == [seg.file]
    ensures SessionRecords([seg.file]) == FileRecords(seg.file)
  {
    assert [seg][1..] == [] && [seg.file][1..] == [];
    assert FileRecords(seg.file) + [] == FileRecords(seg.file);
  }

  lemma UnpackNext(ch: u16, buf: bytes, n: nat)
    ensures n == 0 || InnerStuck(buf) ==> Unpack(ch, buf, n) == []
    ensures n > 0 && !InnerStuck(buf) ==>
              var k := InnerExtent(buf);
              Unpack(ch, buf, n) == [Msg(ch, U64(buf[..8]), buf[12..k])] + Unpack(ch, buf[k..], n - 1)
    ensures forall rest :: Unpack(ch, rest, 0) == []
  {
  }

  lemma PlacedFile(seg: SegmentData, source: Source)
    requires Placed(seg, source)
    ensures source.file == Some(seg.file)
  {
  }

  lemma NothingCounted()
    ensures forall k: u16 :: CountOn([], k) == 0
  {
  }

  lemma IdsSnoc(channels: seq<ChannelDef>, i: nat)
    requires i < |channels|
    ensures Ids(channels[..i + 1]) == Ids(channels[..i]) + [channels[i].id]
    ensures Ids(channels[..i + 1])[..|Ids(channels[..i])|] == Ids(channels[..i])
  {
    assert channels[..i + 1][..i] == channels[..i];
  }

  class Reader {
    const Lib: Library
    const Table: seq<bv32>
    const Segs: seq<SegmentData>
    const Channels: seq<ChannelDef>
    const Annots: seq<Note>
    const ChTotalCount: Totals
    const Strayed: bool

    var CurSeg: nat
    var CurOffset: nat

    var InChunk: bool
    var ChunkRecIdx: nat
    var ChunkRecCnt: nat
    var ChunkBufPos: nat
    var DecBuf: bytes
    var ChunkChannel: u16

    var CorruptCount: nat

    /** The records the cursor has not passed yet. */
    ghost var Coming: seq<Rec>

    constructor (lib: Library, segs: seq<SegmentData>, channels: seq<ChannelDef>, annots: seq<Note>, totals: Totals, strayed: bool)
      requires Standard(lib)
      ensures Valid() && Lib == lib && Segs == segs && Channels == channels && Annots == annots && ChTotalCount == totals && Strayed == strayed
      ensures Remaining() == SessionMsgs(lib, FilesOf(segs))
      ensures CorruptCount == 0 && CorruptAhead() == Corrupt(lib, SessionRecords(FilesOf(segs)))
    {
      AheadFromStart(segs);
      Lib := lib;
      var table := Crc.BuildTable();
      Table := table;
      Segs, Channels, Annots, ChTotalCount, Strayed := segs, channels, annots, totals, strayed;
      CurSeg, CurOffset := 0, HEADER_SIZE;
      InChunk, ChunkRecIdx, ChunkRecCnt, ChunkBufPos, DecBuf, ChunkChannel := false, 0, 0, 0, [], INVALID_CHANNEL;
      CorruptCount := 0;
      Coming := Ahead(segs, 0, HEADER_SIZE);
    }

    ghost predicate Valid()
      reads this
    {
      && Crc.IsTable(Table) && Standard(Lib)
      && CurSeg <= |Segs|
      && ChunkRecIdx <= ChunkRecCnt
      && ChunkBufPos <= |DecBuf|
      && Coming == Ahead(Segs, CurSeg, CurOffset)
    }

    /** The messages of the chunk being read that are still to come. */
    ghost function ChunkRest(): seq<Msg>
      requires Valid()
      reads this
    {
      if InChunk then Unpack(ChunkChannel, DecBuf[ChunkBufPos..], ChunkRecCnt - ChunkRecIdx) else []
    }

    /** Everything this reader would still deliver if it were drained. */
    ghost function Remaining(): seq<Msg>
      requires Valid()
      reads this
    {
      if InChunk then ChunkRest() + Msgs(Lib, Coming) else Msgs(Lib, Coming)
    }

    /** How many corrupt records draining would still meet. */
    ghost function CorruptAhead(): nat
      reads this
    {
      Corrupt(Lib, Coming)
    }

    /** Scans one segment file; a range the scan did not find is taken from the manifest. */
    static method OpenSegment(scan: OpenScan, file: bytes, info: SegmentInfo) returns (seg: SegmentData)
      requires Readable(file)
      modifies scan
      ensures fresh(seg.idx) && Placed(seg, Source(Some(file), info))
      ensures scan.Channels == Known(old(scan.Channels), FileRecords(file))
      ensures scan.Annots == old(scan.Annots) + Notes(FileRecords(file))
      ensures forall k: u16 :: CountOn(scan.ChTotalCount, k) == CountOn(old(scan.ChTotalCount), k) + Declared(FileRecords(file), k)
      ensures scan.Strayed <==> old(scan.Strayed) || !NoneStrays(FileRecords(file))
    {
      hide Known, Notes, Declared, CountOn, FileRecords, LastIndex, StartOf, Greatest, Describes, NoneStrays;
      seg := scan.ScanSegmentAtOpen(file);
      DescribesLoaded(seg, info);
      if seg.startNs == 0 {
        seg := seg.(startNs := info.startNs);
      }
      if seg.endNs == 0 {
        seg := seg.(endNs := info.endNs);
      }
    }

    /** Opens a session by its manifest. Files that cannot be opened are passed over. */
    static method OpenDirectory(lib: Library, known: seq<ChannelDef>, sources: seq<Source>) returns (st: Status, r: Reader?)
      requires Standard(lib)
      ensures st == OpenStatus(sources) && (r != null <==> st == Ok)
      ensures r != null ==>
                && fresh(r) && r.Valid() && r.Lib == lib && r.CorruptCount == 0
                && |r.Segs| == |Present(sources)|
                && (forall i :: 0 <= i < |r.Segs| ==> fresh(r.Segs[i].idx) && Placed(r.Segs[i], Present(sources)[i]))
                && Says(SessionRecords(FilesOf(r.Segs)), known, r.Channels, r.Annots, r.ChTotalCount, r.Strayed)
                && r.Remaining() == SessionMsgs(lib, FilesOf(r.Segs))
                && r.CorruptAhead() == Corrupt(lib, SessionRecords(FilesOf(r.Segs)))
    {
      hide Standard, Known, Notes, Declared, CountOn, NoneStrays, FileRecords, Placed, SessionRecords, Msgs, Corrupt, Reader.Remaining;
      var scan := new OpenScan(known);
      var segs: seq<SegmentData> := [];
      NothingSaid(known);
      NothingOpened(known);
      assert sources[..0] == [];
      for i := 0 to |sources|
        invariant fresh(scan) && AllReadable(sources[..i])
        invariant |segs| == |Present(sources[..i])|
        invariant forall k :: 0 <= k < |segs| ==> fresh(segs[k].idx) && Placed(segs[k], Present(sources[..i])[k])
        invariant Says(SessionRecords(FilesOf(segs)), known, scan.Channels, scan.Annots, scan.ChTotalCount, scan.Strayed)
      {
        assert sources[..i + 1][..i] == sources[..i];
        if sources[i].file.Some? {
          var file := sources[i].file.value;
          if |file| < HEADER_SIZE || file[..8] != MAGIC || file[8] != 1 {
            return ErrorCorrupted, null;
          }
          ghost var annots, totals, strayed := scan.Annots, scan.ChTotalCount, scan.Strayed;
          var seg := OpenSegment(scan, file, sources[i].info);
          PlacedFile(seg, sources[i]);
          FilesSnoc(segs, seg);
          SessionSnoc(FilesOf(segs), file);
          SaysMore(SessionRecords(FilesOf(segs)), FileRecords(file), known, annots, totals, scan.ChTotalCount, strayed);
          segs := segs + [seg];
        }
      }
      assert sources[..|sources|] == sources;
      if segs == [] {
        return ErrorNotFound, null;
      }
      r := new Reader(lib, segs, scan.Channels, scan.Annots, scan.ChTotalCount, scan.Strayed);
      st := Ok;
    }

    /** Opens one segment file by itself; everything known about the session comes from its records. */
    static method OpenFile(lib: Library, file: Option<bytes>) returns (st: Status, r: Reader?)
      requires Standard(lib)
      ensures st == OpenStatus([Source(file, SegmentInfo(0, 0, 0, 0))]) && (r != null <==> st == Ok)
      ensures r != null ==>
                && file.Some? && fresh(r) && r.Valid() && r.Lib == lib && r.CorruptCount == 0
                && |r.Segs| == 1 && r.Segs[0].file == file.value
                && fresh(r.Segs[0].idx) && Describes(r.Segs[0], FileRecords(file.value))
                && Says(FileRecords(file.value), [], r.Channels, r.Annots, r.ChTotalCount, r.Strayed)
                && r.Remaining() == Msgs(lib, FileRecords(file.value))
                && r.CorruptAhead() == Corrupt(lib, FileRecords(file.value))
    {
      hide Standard, Known, Notes, Declared, CountOn, NoneStrays, FileRecords, LastIndex, StartOf, Greatest, Describes, Msgs, Corrupt, Reader.Remaining;
      OneSource(Source(file, SegmentInfo(0, 0, 0, 0)));
      if file.None? {
        return ErrorNotFound, null;
      }
      var f := file.value;
      if |f| < HEADER_SIZE || f[..8] != MAGIC || f[8] != 1 {
        return ErrorCorrupted, null;
      }
      var scan := new OpenScan([]);
      var seg := scan.ScanSegmentAtOpen(f);
      OneFile(seg);
      assert [] + Notes(FileRecords(f)) == Notes(FileRecords(f));
      assert Says(FileRecords(f), [], scan.Channels, scan.Annots, scan.ChTotalCount, scan.Strayed) by {
        NothingCounted();
      }
      r := new Reader(lib, [seg], scan.Channels, scan.Annots, scan.ChTotalCount, scan.Strayed);
      st := Ok;
    }

    /** The least offset the index gives for any channel. */
    method FirstOffset(idx: SeekIndex, target: u64) returns (best: Option<nat>)
      requires Sorted(idx.Points)
      ensures best == SeekOffset(idx.Points, Ids(Channels), target)
    {
      hide Sorted;
      best := None;
      for i := 0 to |Channels|
        invariant best == SeekOffset(idx.Points, Ids(Channels[..i]), target)
      {
        var off := idx.Find(Channels[i].id, target);
        IdsSnoc(Channels, i);
        if off != U64_MAX && (best.None? || off < best.value) {
          best := Some(off);
        }
      }
      assert Channels[..|Channels|] == Channels;
    }

    /** Moves the cursor so that nothing at or behind the target is missed, when the index is faithful. */
    method Seek(target: u64) returns (st: Status)
      requires Valid() && forall i :: 0 <= i < |Segs| ==> Sorted(Segs[i].idx.Points)
      modifies this`CurSeg, this`CurOffset, this`InChunk, this`Coming
      ensures st == if Segs == [] then ErrorNotFound else Ok
      ensures Valid() && !InChunk
      ensures Segs != [] ==>
                CurSeg == SeekSegment(Segs, target)
                && CurOffset == SeekOffset(Segs[CurSeg].idx.Points, Ids(Channels), target).GetOr(HEADER_SIZE)
    {
      hide Crc.IsTable, Standard, Ahead, Sorted, SeekOffset;
      InChunk := false;
      if |Segs| == 0 {
        return ErrorNotFound;
      }
      var segIdx := 0;
      for i := 0 to |Segs|
        invariant segIdx < |Segs| && segIdx == SeekSegment(Segs[..i], target)
      {
        assert Segs[..i + 1][..i] == Segs[..i];
        if Segs[i].startNs <= target {
          segIdx := i;
        }
      }
      assert Segs[..|Segs|] == Segs;
      CurSeg := segIdx;
      var best := FirstOffset(Segs[segIdx].idx, target);
      CurOffset := best.GetOr(HEADER_SIZE);
      Coming := Ahead(Segs, CurSeg, CurOffset);
      st := Ok;
    }

    /** The messages recorded on a channel, as the records announce them. */
    method MessageCount(ch: u16) returns (n: nat)
      ensures n == CountOn(ChTotalCount, ch)
    {
      n := if ch >= |ChTotalCount| then 0 else ChTotalCount[ch];
    }

    method TotalMessageCount() returns (total: nat)
      ensures total == Sum(ChTotalCount)
    {
      total := 0;
      for i := 0 to |ChTotalCount|
        invariant total == Sum(ChTotalCount[..i])
      {
        assert ChTotalCount[..i + 1][..i] == ChTotalCount[..i];
        total := total + ChTotalCount[i];
      }
      assert ChTotalCount[..|ChTotalCount|] == ChTotalCount;
    }

    /** Reads the inner record at the buffer position, or gives the chunk up. */
    method TakeInner() returns (out: Option<Msg>)
      requires Valid() && InChunk && ChunkRecIdx < ChunkRecCnt
      modifies this`InChunk, this`ChunkRecIdx, this`ChunkBufPos
      ensures Valid()
      ensures out.None? ==> old(ChunkRest()) == [] && !InChunk
      ensures out.Some? ==> [out.value] + ChunkRest() == old(ChunkRest())
    {
      hide Crc.IsTable, Standard, Ahead, U32, U64, Unpack;
      UnpackNext(ChunkChannel, DecBuf[ChunkBufPos..], ChunkRecCnt - ChunkRecIdx);
      var buf := DecBuf[ChunkBufPos..];
      if ChunkBufPos + 12 <= |DecBuf| {
        var ts := U64(buf[..8]);
        var len := U32(buf[8..12]);
        if ChunkBufPos + 12 + len <= |DecBuf| {
          out := Some(Msg(ChunkChannel, ts, buf[12..12 + len]));
          assert buf[12 + len..] == DecBuf[ChunkBufPos + 12 + len..];
          ChunkBufPos := ChunkBufPos + 12 + len;
          ChunkRecIdx := ChunkRecIdx + 1;
          if ChunkRecIdx >= ChunkRecCnt {
            InChunk := false;
          }
          return;
        }
      }
      InChunk := false;
      out := None;
    }

    /** Decompresses a chunk payload and makes its buffer current; counts it as corrupt when it does not decompress. */
    method StartChunk(ch: u16, payload: bytes)
      requires Valid() && !InChunk && |payload| >= CHUNK_HEADER_SIZE
      modifies this`InChunk, this`ChunkRecIdx, this`ChunkRecCnt, this`ChunkBufPos, this`DecBuf, this`ChunkChannel, this`CorruptCount
      ensures Valid()
      ensures ChunkBuffer(Lib, payload).None? ==> !InChunk && CorruptCount == old(CorruptCount) + 1
      ensures ChunkBuffer(Lib, payload).Some? ==>
                CorruptCount == old(CorruptCount)
                && ChunkRest() == Unpack(ch, ChunkBuffer(Lib, payload).value, ChunkCount(payload))
      ensures InChunk ==> ChunkRecIdx < ChunkRecCnt
    {
      hide Crc.IsTable, Standard, Ahead, Nat, U32, Decompress;
      var recCnt := U32(payload[5..9]);
      var buf := Decompress(Lib, payload[0], payload[9..], U32(payload[1..5]));
      if buf.None? {
        CorruptCount := CorruptCount + 1;
        return;
      }
      ChunkBufPos := 0;
      DecBuf := buf.value;
      ChunkRecIdx := 0;
      ChunkRecCnt := recCnt;
      if recCnt == 0 {
        return;
      }
      ChunkChannel := ch;
      InChunk := true;
      assert DecBuf[0..] == DecBuf;
    }

    /** Consumes the record at the cursor, which is complete; delivers its first message if it has one. */
    method TakeRecord(s: bytes) returns (out: Option<Msg>)
      requires Valid() && !InChunk && CurSeg < |Segs|
      requires s == From(Segs[CurSeg].file, CurOffset) && !Stuck(s)
      modifies this
      ensures Valid() && CurSeg == old(CurSeg)
      ensures old(CurOffset) < CurOffset <= |Segs[CurSeg].file|
      ensures old(Coming) == [Decode(s)] + Coming
      ensures CorruptCount == old(CorruptCount) + RecCorrupt(Lib, Decode(s))
      ensures out.None? ==> !InChunk && RecMsgs(Lib, Decode(s)) == []
      ensures out.Some? ==> RecMsgs(Lib, Decode(s)) == [out.value] + ChunkRest()
    {
      hide Crc.IsTable, Standard, Ahead, Decode, Stuck, Unpack, ChunkBuffer;
      var r := Decode(s);
      var intact := Integrity.CheckIntact(Lib, Table, s);
      NextRecord(Segs, CurSeg, CurOffset, s);
      CurOffset := CurOffset + Extent(s);
      Coming := Ahead(Segs, CurSeg, CurOffset);
      out := None;
      if !intact {
        CorruptCount := CorruptCount + 1;
      } else if r.op == OP_DATA {
        out := Some(Msg(r.ch, r.ts, r.payload));
      } else if r.op == OP_CHUNK && |r.payload| >= CHUNK_HEADER_SIZE {
        StartChunk(r.ch, r.payload);
        if InChunk {
          out := TakeInner();
        }
      }
    }

    /** Moves to the start of the next segment when no complete record is left in this one. */
    method SkipSegment()
      requires Valid() && CurSeg < |Segs| && Stuck(From(Segs[CurSeg].file, CurOffset))
      modifies this`CurSeg, this`CurOffset
      ensures Valid() && CurSeg == old(CurSeg) + 1
    {
      hide Crc.IsTable, Standard, Ahead, From, Stuck;
      NextSegment(Segs, CurSeg, CurOffset);
      CurSeg := CurSeg + 1;
      CurOffset := HEADER_SIZE;
    }

    /** Delivers the next message of the session, or None at its end. */
    method NextMessage() returns (out: Option<Msg>)
      requires Valid()
      modifies this
      ensures Valid()
      ensures out.None? ==> old(Remaining()) == [] == Remaining() && CorruptAhead() == 0
      ensures out.Some? ==> old(Remaining()) == [out.value] + Remaining()
      ensures CorruptCount + CorruptAhead() == old(CorruptCount + CorruptAhead())
    {
      if InChunk {
        out := None;
        if ChunkRecIdx < ChunkRecCnt {
          out := TakeInner();
          if out.Some? {
            Seqs.Regroup([out.value], ChunkRest(), Msgs(Lib, Coming));
            return;
          }
        } else {
          InChunk := false;
        }
      }
      out := NextFromRecords();
    }

    method NextFromRecords() returns (out: Option<Msg>)
      requires Valid() && !InChunk
      modifies this
      ensures Valid()
      ensures out.None? ==> Msgs(Lib, old(Coming)) == [] && Remaining() == [] && CorruptAhead() == 0
      ensures out.Some? ==> Msgs(Lib, old(Coming)) == [out.value] + Remaining()
      ensures CorruptCount + CorruptAhead() == old(CorruptCount + CorruptAhead())
    {
      hide Crc.IsTable, Standard, Ahead, From, Decode, Stuck, RecMsgs, RecCorrupt, Msgs, Corrupt, Unpack;
      out := None;
      while CurSeg < |Segs|
        invariant Valid() && !InChunk
        invariant Msgs(Lib, Coming) == Msgs(Lib, old(Coming))
        invariant CorruptCount + Corrupt(Lib, Coming) == old(CorruptCount) + Corrupt(Lib, old(Coming))
        decreases |Segs| - CurSeg, if CurSeg < |Segs| && CurOffset <= |Segs[CurSeg].file| then |Segs[CurSeg].file| - CurOffset else 0
      {
        var s := From(Segs[CurSeg].file, CurOffset);
        if Stuck(s) {
          SkipSegment();
        } else {
          ghost var all := Coming;
          out := TakeRecord(s);
          MsgsStep(Lib, all, Decode(s), Coming);
          if out.Some? {
            Seqs.Regroup([out.value], ChunkRest(), Msgs(Lib, Coming));
            return;
          }
        }
      }
      AtEnd(Lib, Segs, CurOffset);
      out := None;
    }

    /** Whether a channel passes the filter; an empty filter lets every channel pass. */
    static method PassesFilter(filter: seq<u16>, ch: u16) returns (keep: bool)
      ensures keep <==> filter == [] || ch in filter
    {
      keep := |filter| == 0;
      var i := 0;
      while i < |filter| && !keep
        invariant i <= |filter|
        invariant keep <==> filter == [] || ch in filter[..i]
      {
        keep := filter[i] == ch;
        i := i + 1;
      }
      assert filter[..|filter|] == filter;
    }

    /**
     * Visits the messages the options ask for until the callback, which is given all messages it
     * has seen, answers false. Without a start time it goes on from the current position.
     */
    method Read(o: ReadOptions, go: seq<Msg> -> bool) returns (st: Status, visited: seq<Msg>)
      requires Valid() && forall i :: 0 <= i < |Segs| ==> Sorted(Segs[i].idx.Points)
      modifies this
      ensures Valid()
      ensures st == if o.startNs > 0 && Segs == [] then ErrorNotFound else Ok
      ensures st == Ok && o.startNs == 0 ==> visited == Scan(o, go, [], old(Remaining()))
      ensures st == Ok && o.startNs > 0 ==>
                visited == Scan(o, go, [], Msgs(Lib, SoughtRecords(Segs, Ids(Channels), o.startNs)))
    {
      hide Reader.Valid, Sorted, SeekOffset, Msgs, Wanted, Scan;
      visited := [];
      st := Ok;
      if o.startNs > 0 {
        st := Seek(o.startNs);
        if st != Ok {
          return;
        }
        SoughtIsAhead();
      }
      ghost var all := Remaining();
      var more := true;
      while more
        invariant Valid()
        invariant more ==> Scan(o, go, visited, Remaining()) == Scan(o, go, [], all)
        invariant !more ==> visited == Scan(o, go, [], all)
        decreases more, |Remaining()|
      {
        var msg := NextMessage();
        if msg.None? {
          NothingToScan(o, go, visited);
          more := false;
        } else {
          ScanStep(o, go, visited, msg.value, Remaining());
          if o.endNs > 0 && msg.value.ts > o.endNs {
            more := false;
            continue;
          }
          WantedInRange(o, msg.value);
          if o.startNs == 0 || msg.value.ts >= o.startNs {
            var keep := PassesFilter(o.channels, msg.value.ch);
            if keep {
              visited := visited + [msg.value];
              more := go(visited);
            }
          }
        }
      }
    }

    lemma SoughtIsAhead()
      requires Valid() && !InChunk && Segs != []
      ensures Coming == Ahead(Segs, CurSeg, CurOffset) && Remaining() == Msgs(Lib, Coming)
    {
    }
  }
}

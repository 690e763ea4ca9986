/** Sessions the recorder wrote, seen by the reader that opens them: their indexes, their ranges, and reading them by index. */
module Recorded {
  import opened Bytes
  import opened Format
  import opened Outcomes
  import opened Routines
  import opened Stream
  import opened Index
  import opened Recording
  import opened Conservation
  import opened Runs
  import opened RoundTrip
  import opened Summary
  import opened Opening
  import opened Seeking
  import opened Playback
  import opened IndexedRead
  import opened Chronicle
  import opened Reopening
  import Seqs
  import Writer

  // ----- one segment -----

  lemma EntryAsData(c: Config, e: Entry)
    requires SoundEntry(e)
    ensures var r := ToRec(c, e);
            && (HoldsData(r) <==> !e.Control?)
            && (!e.Control? ==> r.ch == EntryChannel(e) && r.ts == FirstTs(EntryMsgs(e)))
  {
  }

  /** The writer's index and start time are those of the records it wrote. */
  lemma {:induction false} PointsAgree(c: Config, es: seq<Entry>)
    requires SoundEntries(es)
    ensures Points(c, es) == PointsOf(c.intervalNs, Recs(c, es))
    ensures DataRange(es).startNs == (if DataRange(es).hasData then Least(Recs(c, es)) else 0)
    ensures !DataRange(es).hasData ==> Least(Recs(c, es)) == U64_MAX
    decreases |es|
  {
    hide ToRec, SoundEntry, AddIfDue, EncodeAll, FirstTs, LastTs;
    if es != [] {
      var n := |es| - 1;
      PointsAgree(c, es[..n]);
      EntryAsData(c, es[n]);
      PointsSnoc(c.intervalNs, Recs(c, es[..n]), ToRec(c, es[n]));
    }
  }

  lemma {:induction false} PointsFit(interval: u64, rs: seq<Rec>)
    requires HEADER_SIZE + |EncodeAll(rs)| <= U64_MAX
    ensures forall p :: p in PointsOf(interval, rs) ==> p.offset <= U64_MAX
  {
    hide EncodeAll, PointsOf;
    forall p | p in PointsOf(interval, rs)
      ensures p.offset <= U64_MAX
    {
      var i := PointsAreSound(interval, rs, p);
      OffsetsGrow(rs, i, |rs|);
      assert rs[..|rs|] == rs;
    }
  }

  /** The index of the segment fits the 32-bit length of its record. */
  predicate IndexStored(c: Config, seg: Segment) { 4 + ENTRY_SIZE * |Points(c, seg.entries)| < 0x1_0000_0000 }

  /**
   * The index of a closed segment, as a reader loads it, is exactly the list of points of the
   * records found in the file; the manifest's start time is the least timestamp of its data.
   */
  lemma SealedIndex(c: Config, seg: Segment)
    requires Usable(c) && SoundSegment(seg) && |SealedFile(c, seg)| <= U64_MAX
    ensures var rs := FileRecords(SealedFile(c, seg));
            && (IndexStored(c, seg) ==> LastIndex(rs) == PointsOf(c.intervalNs, rs))
            && DataRange(seg.entries).startNs == (if DataRange(seg.entries).hasData then Least(rs) else 0)
            && (!DataRange(seg.entries).hasData ==> Least(rs) == U64_MAX)
  {
    hide Footer, ToRec, EncodeAll, Content, SoundEntries, FileRecords, Points, PointsOf, DataRange, IndexEntry, EndEntry, StoredPoints, CutPoints, LoadedPoints, SealedFile;
    var es := seg.entries;
    var index, end := ToRec(c, IndexEntry(c, es)), ToRec(c, EndEntry(es));
    var before := Recs(c, es);
    SealedReadsBack(c, seg);
    Snoc(c, es, IndexEntry(c, es));
    Snoc(c, es + [IndexEntry(c, es)], EndEntry(es));
    PointsAgree(c, es);
    IndexRecords(c, es);
    SegmentSize(c, seg);
    if IndexStored(c, seg) {
      PointsFit(c.intervalNs, before);
      LoadStored(Points(c, es));
    }
    SaysSnoc([], before, index);
    SaysSnoc([], before + [index], end);
    PointsSnoc(c.intervalNs, before, index);
    PointsSnoc(c.intervalNs, before + [index], end);
  }

  lemma IndexRecords(c: Config, es: seq<Entry>)
    ensures var index, end := ToRec(c, IndexEntry(c, es)), ToRec(c, EndEntry(es));
            && index.op == OP_INDEX && index.payload == CutPoints(Points(c, es)) && !HoldsData(index)
            && end.op == OP_SESSION_END && !HoldsData(end)
  {
  }

  lemma SegmentSize(c: Config, seg: Segment)
    requires SoundSegment(seg)
    ensures HEADER_SIZE + |EncodeAll(Recs(c, seg.entries))| < |SealedFile(c, seg)|
    ensures SealedFile(c, seg)[..8] == MAGIC && SealedFile(c, seg)[8] == 1
  {
    hide Footer, EncodeAll, Recs, IndexEntry, EndEntry, SoundEntries;
    BodyConcat(c, seg.entries, [IndexEntry(c, seg.entries)]);
    BodyConcat(c, seg.entries + [IndexEntry(c, seg.entries)], [EndEntry(seg.entries)]);
    assert seg.header[..8] == SealedFile(c, seg)[..8];
  }

  /** A closed segment that was opened is ready for seeking, and found to hold data when it does. */
  lemma RecordedIsIndexed(c: Config, segment: Segment, seg: SegmentData)
    requires Usable(c) && SoundSegment(segment) && c.intervalNs > 0 && IndexStored(c, segment)
    requires |SealedFile(c, segment)| < U64_MAX && seg.file == SealedFile(c, segment) && Loaded(seg)
    ensures Indexed(seg)
    ensures HasData(FileRecords(seg.file)) <==> DataRange(segment.entries).hasData
  {
    hide SoundEntries, EncodeAll, FileRecords, PointsOf, DataRange, SealedFile, Content, LastIndex, Least, Sorted, StoredPoints, HoldsData;
    SealedIndex(c, segment);
    SegmentSize(c, segment);
    assert multiset(seg.idx.Points) == multiset(PointsOf(c.intervalNs, FileRecords(seg.file)));
    SealedHasData(c, segment);
  }

  lemma SealedHasData(c: Config, seg: Segment)
    requires Usable(c) && SoundSegment(seg)
    ensures HasData(FileRecords(SealedFile(c, seg))) <==> DataRange(seg.entries).hasData
  {
    hide SealedFile, FileRecords, Content, HoldsData, SoundEntries, ToRec, IndexEntry, EndEntry, DataRange, Recs, Points, Noted;
    var es := seg.entries;
    SealedReadsBack(c, seg);
    SealedIsSound(c, es);
    Snoc(c, es, IndexEntry(c, es));
    Snoc(c, es + [IndexEntry(c, es)], EndEntry(es));
    EndsAreControls(c, es);
    DataInEntries(c, SealedEntries(c, es));
  }

  lemma {:induction false} DataInEntries(c: Config, es: seq<Entry>)
    requires SoundEntries(es)
    ensures HasData(Recs(c, es)) <==> DataRange(es).hasData
    decreases |es|
  {
    hide ToRec, SoundEntry, HoldsData, FirstTs, LastTs;
    if es != [] {
      var n := |es| - 1;
      DataInEntries(c, es[..n]);
      EntryAsData(c, es[n]);
      var rs, before := Recs(c, es), Recs(c, es[..n]);
      assert rs[n] == ToRec(c, es[n]) && forall i :: 0 <= i < n ==> rs[i] == before[i];
    }
  }

  /** Opened with its manifest entry, a segment starts where the manifest says, and its data does if it has any. */
  lemma RecordedIsDated(c: Config, index: nat, segment: Segment, seg: SegmentData)
    requires Usable(c) && SoundSegment(segment)
    requires |SealedFile(c, segment)| <= U64_MAX
    requires Placed(seg, Source(Some(SealedFile(c, segment)), Info(c, index, segment)))
    ensures seg.startNs == DataRange(segment.entries).startNs
    ensures DataRange(segment.entries).hasData ==> Dated(seg)
  {
    hide SoundEntries, FileRecords, DataRange, SealedFile, Content, LastIndex, Least, Sorted, PointsOf, Greatest, HasData;
    SealedIndex(c, segment);
    SealedHasData(c, segment);
  }

  // ----- plain sessions -----

  /** Every data record has its message. */
  ghost predicate Carried(rs: seq<Rec>, ms: seq<Msg>) {
    forall i :: 0 <= i < |rs| && HoldsData(rs[i]) ==> exists k :: Carries(rs[i], ms, k)
  }

  ghost predicate Carries(r: Rec, ms: seq<Msg>, k: nat) { k < |ms| && ms[k].ts == r.ts && ms[k].ch == r.ch }

  /** Plain records rise when their messages do. */
  lemma {:induction false} RisingBack(lib: Library, rs: seq<Rec>)
    requires Plain(lib, rs)
    ensures Carried(rs, Msgs(lib, rs))
    ensures RisingMsgs(Msgs(lib, rs)) ==> Rising(rs)
    decreases |rs|
  {
    hide Intact, HoldsData, RecMsgs;
    if rs != [] {
      var r, rest := rs[0], rs[1..];
      var later := Msgs(lib, rest);
      assert rs == [r] + rest;
      PlainOne(lib, r);
      RisingBack(lib, rest);
      CarriedCons(r, rest, RecMsgs(lib, r), later);
      if RisingMsgs(Msgs(lib, rs)) {
        RisingCons(r, rest, RecMsgs(lib, r), later);
      }
    }
  }

  lemma CarriedCons(r: Rec, rest: seq<Rec>, first: seq<Msg>, later: seq<Msg>)
    requires first == (if HoldsData(r) then [Msg(r.ch, r.ts, r.payload)] else []) && Carried(rest, later)
    ensures Carried([r] + rest, first + later)
  {
    hide HoldsData;
    var rs, ms := [r] + rest, first + later;
    forall i | 0 <= i < |rs| && HoldsData(rs[i])
      ensures exists k :: Carries(rs[i], ms, k)
    {
      if i == 0 {
        assert Carries(r, ms, 0);
      } else {
        assert rest[i - 1] == rs[i];
        var k: nat :| Carries(rest[i - 1], later, k);
        assert Carries(rs[i], ms, |first| + k);
      }
    }
  }

  lemma RisingCons(r: Rec, rest: seq<Rec>, first: seq<Msg>, later: seq<Msg>)
    requires first == (if HoldsData(r) then [Msg(r.ch, r.ts, r.payload)] else []) && Carried(rest, later)
    requires RisingMsgs(first + later) && (RisingMsgs(later) ==> Rising(rest))
    ensures Rising([r] + rest)
  {
    hide HoldsData;
    var rs, ms, n := [r] + rest, first + later, |first|;
    assert forall k :: 0 <= k < |later| ==> ms[n + k] == later[k];
    assert RisingMsgs(later);
    forall j | 0 <= j < |rest| && HoldsData(r) && HoldsData(rest[j])
      ensures r.ts <= rest[j].ts
    {
      var k: nat :| Carries(rest[j], later, k);
      assert ms[0].ts <= ms[n + k].ts;
    }
  }

  lemma {:induction false} PlainRecs(c: Config, es: seq<Entry>)
    requires SoundEntries(es) && NoChunks(es) && Inverts(c.lib)
    ensures Plain(c.lib, Recs(c, es))
    decreases |es|
  {
    hide ToRec, SoundEntry, Intact;
    if es != [] {
      var n := |es| - 1;
      PlainRecs(c, es[..n]);
      RecordIsIntact(c, es[n]);
      OpOf(c, es[n]);
      NotChunk(c, es[n]);
    }
  }

  lemma NotChunk(c: Config, e: Entry)
    requires SoundEntry(e) && !e.Chunk?
    ensures ToRec(c, e).op != OP_CHUNK
  {
  }

  lemma {:induction false} SealedHasNoChunks(c: Config, closed: seq<Segment>)
    requires forall i :: 0 <= i < |closed| ==> NoChunks(closed[i].entries)
    ensures NoChunks(Sealed(c, closed))
    decreases |closed|
  {
    hide IndexEntry, EndEntry;
    if closed != [] {
      var n := |closed| - 1;
      SealedHasNoChunks(c, closed[..n]);
      SealedTail(c, closed[n].entries);
      EndsAreControls(c, closed[n].entries);
    }
  }

  lemma EndsAreControls(c: Config, es: seq<Entry>)
    ensures IndexEntry(c, es).Control? && EndEntry(es).Control?
  {
  }

  lemma {:induction false} AcceptedOnKnown(c: Config, L: Log, calls: seq<Call>)
    requires Shaped(c, L)
    ensures |L.channels| <= |Run(c, L, calls).channels|
    ensures forall m :: m in Accepted(c, L, calls) ==> m.ch < |Run(c, L, calls).channels|
    decreases |calls|
  {
    hide Shaped;
    if calls != [] {
      AfterGrows(c, L, calls[0]);
      AcceptedOnKnown(c, After(c, L, calls[0]), calls[1..]);
    }
  }

  lemma AfterGrows(c: Config, L: Log, call: Call)
    requires Shaped(c, L)
    ensures Shaped(c, After(c, L, call)) && |L.channels| <= |After(c, L, call).channels|
  {
  }

  lemma {:induction false} IdsAre(channels: seq<ChannelDef>, i: nat)
    requires i < |channels|
    ensures channels[i].id in Ids(channels)
    decreases |channels|
  {
    if i < |channels| - 1 {
      IdsAre(channels[..|channels| - 1], i);
    }
  }

  // ----- sessions recorded without compression, in time order -----

  /** What indexed reading asks of a run; segments may be empty, and have any number of points that fits their index. */
  ghost predicate Indexable(c: Config, calls: seq<Call>)
    requires |c.sessionId| == 16
  {
    var closed := Closing(c, Run(c, Opened(c), calls));
    && c.intervalNs > 0 && DefinesUncompressed(calls) && RisingMsgs(Accepted(c, Opened(c), calls))
    && forall i :: 0 <= i < |closed| ==> |SealedFile(c, closed[i])| < U64_MAX && IndexStored(c, closed[i])
  }

  /** No timestamp was recorded in two segments. */
  ghost predicate SplitClean(closed: seq<Segment>) {
    forall a, b, m, m' :: 0 <= a < b < |closed| && m in Content(closed[a].entries) && m' in Content(closed[b].entries) ==> m.ts != m'.ts
  }

  /** The segments of a session, opened with their indexes. */
  ghost predicate Opens(c: Config, closed: seq<Segment>, segs: seq<SegmentData>)
    reads set i | 0 <= i < |segs| :: segs[i].idx
  {
    && |segs| == |closed|
    && forall i :: 0 <= i < |segs| ==> segs[i].file == SealedFile(c, closed[i]) && Loaded(segs[i])
  }

  /** The segments of a session, opened with their manifest entries. */
  ghost predicate Reopened(c: Config, closed: seq<Segment>, segs: seq<SegmentData>)
    reads set i | 0 <= i < |segs| :: segs[i].idx
  {
    && |segs| == |closed|
    && forall i :: 0 <= i < |segs| ==> Placed(segs[i], Source(Some(SealedFile(c, closed[i])), Info(c, i, closed[i])))
  }

  lemma ReopenedOpens(c: Config, closed: seq<Segment>, segs: seq<SegmentData>)
    requires Reopened(c, closed, segs)
    ensures Opens(c, closed, segs)
  {
    hide SealedFile, Info, Loaded, StartOf, Greatest, FileRecords;
    forall i | 0 <= i < |segs|
      ensures segs[i].file == SealedFile(c, closed[i]) && Loaded(segs[i])
    {
      assert Placed(segs[i], Source(Some(SealedFile(c, closed[i])), Info(c, i, closed[i])));
    }
  }

  lemma {:induction false} OpenedFiles(c: Config, closed: seq<Segment>, segs: seq<SegmentData>)
    requires Opens(c, closed, segs)
    ensures FilesOf(segs) == Writer.SealedFiles(c, closed)
    decreases |segs|
  {
    hide SealedFile, Loaded;
    if segs != [] {
      var n := |segs| - 1;
      assert segs == segs[..n] + [segs[n]];
      FilesSnoc(segs[..n], segs[n]);
      OpenedFiles(c, closed[..n], segs[..n]);
    } else {
      assert closed == [];
    }
  }

  /** Every uncompressed run in time order gives an orderly session. */
  lemma RecordedIsOrderly(c: Config, calls: seq<Call>, segs: seq<SegmentData>)
    requires Usable(c) && AllAllowed(c, Opened(c), calls)
    requires Indexable(c, calls) && Opens(c, Closing(c, Run(c, Opened(c), calls)), segs)
    ensures Orderly(c.lib, segs, Ids(Run(c, Opened(c), calls).channels))
    ensures SessionMsgs(c.lib, FilesOf(segs)) == Accepted(c, Opened(c), calls)
  {
    hide Good, AllAllowed, Accepted, FlushAll, Opened, Sealed, SealedFile, Recs, Content, SoundEntries, Plain, Rising, Listed,
      Intact, HoldsData, FileRecords, Indexed, Loaded, SoundSegment, Written, OnDisk, Standard, Inverts, DefinesUncompressed, DataRange, Only, RisingMsgs, Uncompressed;
    OpenedHolds(c);
    var L1 := Run(c, Opened(c), calls);
    var L := FlushAll(c, L1);
    var closed := L.closed + [L.cur];
    ClosingLog(c, calls);
    PlainRun(c, calls);
    OpenedFiles(c, closed, segs);
    SealedReads(c, closed);
    var rs := AllRecords(segs);
    assert rs == Recs(c, Sealed(c, closed));
    InvertsOf(c);
    PlainRecs(c, Sealed(c, closed));
    ReplayedInOrder(c, calls);
    RisingBack(c.lib, rs);
    AcceptedOnKnown(c, Opened(c), calls);
    ListedIn(c, L1, rs);
    SegmentsAreIndexed(c, closed, segs);
  }

  lemma PlainRun(c: Config, calls: seq<Call>)
    requires Usable(c) && AllAllowed(c, Opened(c), calls) && DefinesUncompressed(calls)
    ensures NoChunks(Sealed(c, Closing(c, Run(c, Opened(c), calls))))
  {
    hide AllAllowed, Accepted, Fresh, Usable, OnDisk, Content, SealedEntries, NoChunks, DefinesUncompressed, Sealed;
    OpenedIsSettled(c);
    OpenedHolds(c);
    FreshHasNoChunks(c, 0, []);
    RunKeepsOrder(c, Opened(c), calls);
    RunKeeps(c, Opened(c), calls);
    var L := Run(c, Opened(c), calls);
    NothingPends(c, L);
    NothingToFlush(c, L, 0);
    SealedHasNoChunks(c, L.closed + [L.cur]);
  }

  lemma ListedIn(c: Config, L: Log, rs: seq<Rec>)
    requires Good(c, L) && Plain(c.lib, rs)
    requires forall m :: m in Msgs(c.lib, rs) ==> m.ch < |L.channels|
    ensures Listed(rs, Ids(L.channels))
  {
    hide Good, Intact, HoldsData, Plain;
    RisingBack(c.lib, rs);
    forall i | 0 <= i < |rs| && HoldsData(rs[i])
      ensures rs[i].ch in Ids(L.channels)
    {
      var k: nat :| Carries(rs[i], Msgs(c.lib, rs), k);
      assert Msgs(c.lib, rs)[k] in Msgs(c.lib, rs);
      ChannelFacts(c, L, rs[i].ch);
      IdsAre(L.channels, rs[i].ch);
    }
  }

  lemma SegmentsAreIndexed(c: Config, closed: seq<Segment>, segs: seq<SegmentData>)
    requires Usable(c) && SoundClosed(closed) && c.intervalNs > 0
    requires Opens(c, closed, segs)
    requires forall i :: 0 <= i < |closed| ==> |SealedFile(c, closed[i])| < U64_MAX && IndexStored(c, closed[i])
    ensures forall i :: 0 <= i < |segs| ==> Indexed(segs[i])
  {
    hide Usable, SoundSegment, Content, ClosedContent, DataRange, SealedFile, Loaded, Indexed, HasData;
    forall i | 0 <= i < |segs|
      ensures Indexed(segs[i])
    {
      RecordedIsIndexed(c, closed[i], segs[i]);
    }
  }

  lemma SegmentDataMsgs(c: Config, seg: Segment, i: nat)
    requires Usable(c) && SoundSegment(seg) && NoChunks(seg.entries)
    requires i < |FileRecords(SealedFile(c, seg))| && HoldsData(FileRecords(SealedFile(c, seg))[i])
    ensures exists m :: m in Content(seg.entries) && m.ts == FileRecords(SealedFile(c, seg))[i].ts
  {
    hide SealedFile, FileRecords, Content, Intact, HoldsData, Plain, SoundEntries, Usable, SealedEntries, NoChunks, Recs;
    var rs := FileRecords(SealedFile(c, seg));
    SealedReadsBack(c, seg);
    SealedIsSound(c, seg.entries);
    SealedNoChunks(c, seg.entries);
    InvertsOf(c);
    PlainRecs(c, SealedEntries(c, seg.entries));
    RawEntriesCompress(c, SealedEntries(c, seg.entries));
    RecsReadBack(c, SealedEntries(c, seg.entries));
    RisingBack(c.lib, rs);
    var k: nat :| Carries(rs[i], Msgs(c.lib, rs), k);
    assert Msgs(c.lib, rs)[k] in Content(seg.entries);
  }

  lemma SealedNoChunks(c: Config, es: seq<Entry>)
    requires NoChunks(es)
    ensures NoChunks(SealedEntries(c, es))
  {
    hide IndexEntry, EndEntry;
    SealedTail(c, es);
    EndsAreControls(c, es);
  }

  lemma RawEntriesCompress(c: Config, es: seq<Entry>)
    requires NoChunks(es)
    ensures forall e :: e in es ==> Compresses(c, e)
  {
  }

  /** Contents without a common timestamp are segments without one. */
  lemma CleanIsApart(c: Config, closed: seq<Segment>, segs: seq<SegmentData>)
    requires Usable(c) && SoundClosed(closed) && Opens(c, closed, segs)
    requires (forall i :: 0 <= i < |closed| ==> NoChunks(closed[i].entries)) && SplitClean(closed)
    ensures Apart(segs)
  {
    hide Usable, SoundSegment, Content, ClosedContent, SealedFile, FileRecords, NoChunks, Info, HoldsData, Loaded;
    forall a, b, i, j |
      0 <= a < b < |segs| && 0 <= i < |SegRecords(segs, a)| && 0 <= j < |SegRecords(segs, b)|
      && HoldsData(SegRecords(segs, a)[i]) && HoldsData(SegRecords(segs, b)[j])
      ensures SegRecords(segs, a)[i].ts != SegRecords(segs, b)[j].ts
    {
      SegmentDataMsgs(c, closed[a], i);
      SegmentDataMsgs(c, closed[b], j);
    }
  }

  lemma IsUsed(c: Config, calls: seq<Call>)
    requires Usable(c)
    ensures |c.sessionId| == 16 && (Indexable(c, calls) ==> DefinesUncompressed(calls))
  {
    hide RisingMsgs, Accepted, Closing, DefinesUncompressed;
  }

  lemma PlainSegments(c: Config, calls: seq<Call>)
    requires Usable(c) && AllAllowed(c, Opened(c), calls) && DefinesUncompressed(calls)
    ensures var closed := Closing(c, Run(c, Opened(c), calls));
            forall i :: 0 <= i < |closed| ==> NoChunks(closed[i].entries)
  {
    hide AllAllowed, Accepted, Fresh, Usable, OnDisk, NoChunks, DefinesUncompressed;
    OpenedIsSettled(c);
    OpenedHolds(c);
    FreshHasNoChunks(c, 0, []);
    RunKeepsOrder(c, Opened(c), calls);
    RunKeeps(c, Opened(c), calls);
    NothingPends(c, Run(c, Opened(c), calls));
    NothingToFlush(c, Run(c, Opened(c), calls), 0);
  }

  lemma {:induction false} ContentJoins(a: seq<Segment>, b: seq<Segment>)
    ensures ClosedContent(a + b) == ClosedContent(a) + ClosedContent(b)
    decreases |b|
  {
    hide Content;
    if b == [] {
      assert a + b == a;
    } else {
      var n := |b| - 1;
      assert (a + b)[..|a + b| - 1] == a + b[..n];
      ContentJoins(a, b[..n]);
      Seqs.Regroup(ClosedContent(a), ClosedContent(b[..n]), Content(b[n].entries));
    }
  }

  lemma RawClosedCompress(c: Config, closed: seq<Segment>)
    requires forall i :: 0 <= i < |closed| ==> NoChunks(closed[i].entries)
    ensures ChunksCompressed(c, closed)
  {
  }

  /** The messages of opened segments are those of the closed ones. */
  lemma OpenedMsgs(c: Config, closed: seq<Segment>, segs: seq<SegmentData>)
    requires Usable(c) && SoundClosed(closed) && Opens(c, closed, segs) && ChunksCompressed(c, closed)
    ensures Msgs(c.lib, AllRecords(segs)) == ClosedContent(closed)
  {
    hide Usable, SoundSegment, Content, SealedFile, Loaded, AllCompress;
    OpenedFiles(c, closed, segs);
    ClosedReadsBack(c, closed);
  }

  /** The messages recorded before segment s, and from it on. */
  lemma OpenedParts(c: Config, closed: seq<Segment>, segs: seq<SegmentData>, s: nat)
    requires Usable(c) && SoundClosed(closed) && Opens(c, closed, segs) && s <= |closed| && ChunksCompressed(c, closed)
    ensures ClosedContent(closed) == ClosedContent(closed[..s]) + ClosedContent(closed[s..])
    ensures Msgs(c.lib, AllRecords(segs[..s])) == ClosedContent(closed[..s])
    ensures Msgs(c.lib, AllRecords(segs[s..])) == ClosedContent(closed[s..])
  {
    hide Usable, SoundSegment, ClosedContent, SealedFile, Loaded, AllCompress, AllRecords, Msgs;
    assert closed == closed[..s] + closed[s..];
    ContentJoins(closed[..s], closed[s..]);
    OpenedMsgs(c, closed[..s], segs[..s]);
    OpenedMsgs(c, closed[s..], segs[s..]);
  }

  /** A run that can be read by index, closed, and its segments opened. */
  ghost predicate ReadyToRead(c: Config, calls: seq<Call>, segs: seq<SegmentData>)
    reads set i | 0 <= i < |segs| :: segs[i].idx
  {
    && Usable(c) && AllAllowed(c, Opened(c), calls)
    && Indexable(c, calls) && Opens(c, Closing(c, Run(c, Opened(c), calls)), segs)
  }

  lemma ClosingFacts(c: Config, calls: seq<Call>, segs: seq<SegmentData>)
    requires ReadyToRead(c, calls, segs)
    ensures |c.sessionId| == 16 && Shaped(c, Opened(c))
    ensures var closed := Closing(c, Run(c, Opened(c), calls));
            && |segs| == |closed| > 0 && SoundClosed(closed)
            && ClosedContent(closed) == Accepted(c, Opened(c), calls)
            && forall i :: 0 <= i < |closed| ==> NoChunks(closed[i].entries)
  {
    hide AllAllowed, Accepted, Opened, FlushAll, Sealed, Written, IndexEntry, EndEntry, Only, RisingMsgs, SealedFile, NoChunks, Usable, Good, Settled,
      SoundSegment, OnDisk, ClosedContent, Loaded, DefinesUncompressed, Orderly, Msgs;
    IsUsed(c, calls);
    OpenedHolds(c);
    ClosingLog(c, calls);
    PlainSegments(c, calls);
    RecordedIsOrderly(c, calls, segs);
    RawClosedCompress(c, Closing(c, Run(c, Opened(c), calls)));
    OpenedMsgs(c, Closing(c, Run(c, Opened(c), calls)), segs);
    AllRecordsAre(segs);
  }

  /**
   * Recorded, closed, reopened, read by index: for every uncompressed run in time order, a read with a
   * start time visits exactly the accepted messages the options ask for in the segments from the one
   * sought on, in the order of the Write calls.
   */
  lemma RecordedRead(c: Config, calls: seq<Call>, segs: seq<SegmentData>, o: ReadOptions, go: seq<Msg> -> bool)
    requires ReadyToRead(c, calls, segs) && o.startNs > 0
    ensures |c.sessionId| == 16 && segs != []
    ensures var closed, s := Closing(c, Run(c, Opened(c), calls)), SeekSegment(segs, o.startNs);
            && s < |closed|
            && ClosedContent(closed[..s]) + ClosedContent(closed[s..]) == Accepted(c, Opened(c), calls)
            && Scan(o, go, [], Msgs(c.lib, SoughtRecords(segs, Ids(Run(c, Opened(c), calls).channels), o.startNs)))
               == Visited(go, [], Filter(o, ClosedContent(closed[s..])))
  {
    hide AllAllowed, Accepted, Opened, Orderly, SoughtRecords, Scan, Visited, Filter, Msgs, Ids, SoundClosed, Usable, ClosedContent, NoChunks,
      AllRecords, Run, Closing, Indexable, Loaded, SealedFile, SeekSegment;
    ClosingFacts(c, calls, segs);
    RecordedIsOrderly(c, calls, segs);
    ReadAgainstFilter(c.lib, segs, Ids(Run(c, Opened(c), calls).channels), o, go);
    RawClosedCompress(c, Closing(c, Run(c, Opened(c), calls)));
    OpenedParts(c, Closing(c, Run(c, Opened(c), calls)), segs, SeekSegment(segs, o.startNs));
  }

  /** That is everything asked for exactly when no message asked for was recorded in an earlier segment. */
  lemma RecordedReadIsComplete(c: Config, calls: seq<Call>, segs: seq<SegmentData>, o: ReadOptions)
    requires ReadyToRead(c, calls, segs) && o.startNs > 0
    ensures |c.sessionId| == 16 && segs != []
    ensures var closed, s := Closing(c, Run(c, Opened(c), calls)), SeekSegment(segs, o.startNs);
            && s < |closed|
            && (Scan(o, _ => true, [], Msgs(c.lib, SoughtRecords(segs, Ids(Run(c, Opened(c), calls).channels), o.startNs)))
                == Filter(o, Accepted(c, Opened(c), calls))
                <==> forall m :: m in ClosedContent(closed[..s]) ==> !Wanted(o, m))
  {
    hide AllAllowed, Accepted, Opened, Orderly, SoughtRecords, Scan, Filter, Msgs, Ids, SoundClosed, Usable, ClosedContent, NoChunks,
      AllRecords, Run, Closing, Indexable, Loaded, SealedFile, SeekSegment, Wanted;
    ClosingFacts(c, calls, segs);
    RecordedIsOrderly(c, calls, segs);
    ReadIsComplete(c.lib, segs, Ids(Run(c, Opened(c), calls).channels), o);
    RawClosedCompress(c, Closing(c, Run(c, Opened(c), calls)));
    OpenedParts(c, Closing(c, Run(c, Opened(c), calls)), segs, SeekSegment(segs, o.startNs));
  }

  /** In particular when the segment sought holds data and no timestamp was recorded in two segments. */
  lemma RecordedReadIsFilter(c: Config, calls: seq<Call>, segs: seq<SegmentData>, o: ReadOptions, go: seq<Msg> -> bool)
    requires ReadyToRead(c, calls, segs) && o.startNs > 0 && |c.sessionId| == 16 && segs != []
    requires Dated(segs[SeekSegment(segs, o.startNs)]) && SplitClean(Closing(c, Run(c, Opened(c), calls)))
    ensures Scan(o, go, [], Msgs(c.lib, SoughtRecords(segs, Ids(Run(c, Opened(c), calls).channels), o.startNs)))
            == Visited(go, [], Filter(o, Accepted(c, Opened(c), calls)))
  {
    hide AllAllowed, Accepted, Opened, Orderly, Apart, SplitClean, SoughtRecords, Scan, Visited, Filter, Msgs, Ids, SessionMsgs, SoundClosed, Usable, ClosedContent, NoChunks,
      AllRecords, Run, Closing, Indexable, Loaded, SealedFile, SeekSegment, Dated;
    ClosingFacts(c, calls, segs);
    RecordedIsOrderly(c, calls, segs);
    CleanIsApart(c, Closing(c, Run(c, Opened(c), calls)), segs);
    ReadIsFilter(c.lib, segs, Ids(Run(c, Opened(c), calls).channels), o, go);
  }

  // ----- which segment is sought -----

  /** The last segment that starts at or before the target by the manifest, or the first; a segment without data starts at 0. */
  function SoughtIndex(closed: seq<Segment>, target: u64): (s: nat)
    ensures closed != [] ==> s < |closed|
  {
    if |closed| <= 1 then 0
    else if DataRange(closed[|closed| - 1].entries).startNs <= target then |closed| - 1
    else SoughtIndex(closed[..|closed| - 1], target)
  }

  lemma {:induction false} SoughtAgrees(segs: seq<SegmentData>, closed: seq<Segment>, target: u64)
    requires |segs| == |closed| && forall i :: 0 <= i < |segs| ==> segs[i].startNs == DataRange(closed[i].entries).startNs
    ensures SeekSegment(segs, target) == SoughtIndex(closed, target)
    decreases |segs|
  {
    hide DataRange, Sought;
    if |segs| > 1 {
      SoughtAgrees(segs[..|segs| - 1], closed[..|segs| - 1], target);
    }
  }

  /** Opened by the manifest, the reader seeks the segment that the manifest says starts last at or before the target. */
  lemma SoughtByManifest(c: Config, closed: seq<Segment>, segs: seq<SegmentData>, target: u64)
    requires Usable(c) && SoundClosed(closed) && Reopened(c, closed, segs)
    requires forall i :: 0 <= i < |closed| ==> |SealedFile(c, closed[i])| <= U64_MAX
    ensures SeekSegment(segs, target) == SoughtIndex(closed, target)
    ensures forall i :: 0 <= i < |closed| && DataRange(closed[i].entries).hasData ==> Dated(segs[i])
  {
    hide Usable, SoundSegment, Content, ClosedContent, SealedFile, Placed, Info, DataRange, Dated, SeekSegment, SoughtIndex;
    forall i | 0 <= i < |closed|
      ensures segs[i].startNs == DataRange(closed[i].entries).startNs
      ensures DataRange(closed[i].entries).hasData ==> Dated(segs[i])
    {
      RecordedIsDated(c, i, closed[i], segs[i]);
    }
    SoughtAgrees(segs, closed, target);
  }
}

/** Recovered sessions: their rebuilt indexes, and reading them by index. */
module Repaired {
  import opened Bytes
  import opened Format
  import opened Routines
  import opened Stream
  import opened Index
  import opened Summary
  import opened Opening
  import opened Seeking
  import opened Playback
  import opened IndexedRead
  import opened Recorded
  import opened Recovery

  /** The index Recover rebuilds is, as a reader loads it, the list of points of the recovered records. */
  lemma RecoveredIndex(lib: Library, file: bytes)
    requires Recoverable(file) && IndexFits(file) && |file| < U64_MAX
    ensures var rs := FileRecords(Recovered(lib, file));
            LastIndex(rs) == PointsOf(RECOVERY_INTERVAL, rs) && Faithful(LastIndex(rs), rs)
  {
    hide EncodeAll, Records, Tail, PointsOf, StoredPoints, LoadedPoints, Recovered, IndexRecord, Stuck, AllFramed;
    var before := FileRecords(file);
    var index := IndexRecord(lib, before);
    var points := PointsOf(RECOVERY_INTERVAL, before);
    RecoveredRecords(lib, file);
    Walk(file[HEADER_SIZE..]);
    PointsFit(RECOVERY_INTERVAL, before);
    PointsSize(points);
    LoadStored(points);
    SaysSnoc([], before, index);
    PointsSnoc(RECOVERY_INTERVAL, before, index);
  }

  lemma PointsSize(points: seq<SeekPoint>)
    requires |StoredPoints(points)| < 0x1_0000_0000
    ensures |points| < 0x1_0000_0000
  {
  }

  ghost predicate AllRecoverable(files: seq<bytes>) {
    forall i :: 0 <= i < |files| ==> Recoverable(files[i]) && IndexFits(files[i]) && |files[i]| < U64_MAX
  }

  /** Recovered segments, opened with their rebuilt indexes. */
  ghost predicate OpensRecovered(lib: Library, files: seq<bytes>, segs: seq<SegmentData>)
    reads set i | 0 <= i < |segs| :: segs[i].idx
  {
    && |segs| == |files|
    && forall i :: 0 <= i < |segs| ==>
         && Recoverable(files[i]) && segs[i].file == Recovered(lib, files[i]) && Loaded(segs[i])
         && |segs[i].file| < U64_MAX
  }

  lemma RecoveredIsIndexed(lib: Library, file: bytes, seg: SegmentData)
    requires Recoverable(file) && IndexFits(file) && |file| < U64_MAX
    requires seg.file == Recovered(lib, file) && Loaded(seg) && |seg.file| < U64_MAX
    ensures Indexed(seg)
  {
    hide FileRecords, LastIndex, PointsOf, Sorted, EncodeAll, Encode;
    RecoveredIndex(lib, file);
    var rs := FileRecords(seg.file);
    assert multiset(seg.idx.Points) == multiset(PointsOf(RECOVERY_INTERVAL, rs));
  }

  lemma PlainAppend(lib: Library, a: seq<Rec>, b: seq<Rec>, channels: seq<u16>)
    ensures Plain(lib, a) && Plain(lib, b) ==> Plain(lib, a + b)
    ensures Listed(a, channels) && Listed(b, channels) ==> Listed(a + b, channels)
  {
    hide Intact, HoldsData;
  }

  /** Recovery adds index records and nothing else to the records of a session. */
  lemma {:induction false} RecoveredSession(lib: Library, files: seq<bytes>, segs: seq<SegmentData>, channels: seq<u16>)
    requires AllRecoverable(files) && OpensRecovered(lib, files, segs)
    ensures Msgs(lib, AllRecords(segs)) == SessionMsgs(lib, files)
    ensures Plain(lib, SessionRecords(files)) ==> Plain(lib, AllRecords(segs))
    ensures Listed(SessionRecords(files), channels) ==> Listed(AllRecords(segs), channels)
    decreases |files|
  {
    hide FileRecords, Recovered, Recoverable, IndexFits, IndexRecord, Loaded, Plain, Listed, RecMsgs, Intact, HoldsData;
    if files != [] {
      var f, rest := files[0], files[1..];
      var before, added := FileRecords(f), [IndexRecord(lib, FileRecords(f))];
      RecoveredRecords(lib, f);
      RecoveryPreservesMessages(lib, f);
      RecoveredSession(lib, rest, segs[1..], channels);
      MsgsConcat(lib, FileRecords(segs[0].file), AllRecords(segs[1..]));
      MsgsConcat(lib, before, SessionRecords(rest));
      IndexIsNoData(lib, f);
      PartsPlain(lib, before, SessionRecords(rest), channels);
      PlainAppend(lib, before, added, channels);
      PlainAppend(lib, before + added, AllRecords(segs[1..]), channels);
    }
  }

  lemma IndexIsNoData(lib: Library, file: bytes)
    requires IndexFits(file)
    ensures var r := IndexRecord(lib, FileRecords(file));
            !HoldsData(r) && Plain(lib, [r]) && forall channels :: Listed([r], channels)
  {
    hide Intact, FileRecords, IndexRecord, IndexFits;
    IndexCarriesNothing(lib, file);
  }

  lemma PartsPlain(lib: Library, a: seq<Rec>, b: seq<Rec>, channels: seq<u16>)
    ensures Plain(lib, a + b) ==> Plain(lib, a) && Plain(lib, b)
    ensures Listed(a + b, channels) ==> Listed(a, channels) && Listed(b, channels)
  {
    hide Intact, HoldsData;
    var all := a + b;
    assert (forall i :: 0 <= i < |a| ==> all[i] == a[i]) && forall i :: 0 <= i < |b| ==> all[|a| + i] == b[i];
  }

  /**
   * After recovery of plain segments in time order, from whatever state they were in, reading by index
   * is exact again: the recovered session is orderly and holds the same messages.
   */
  lemma RecoveredIsOrderly(lib: Library, files: seq<bytes>, segs: seq<SegmentData>, channels: seq<u16>)
    requires AllRecoverable(files) && OpensRecovered(lib, files, segs)
    requires Plain(lib, SessionRecords(files)) && Listed(SessionRecords(files), channels) && RisingMsgs(SessionMsgs(lib, files))
    ensures Orderly(lib, segs, channels) && SessionMsgs(lib, FilesOf(segs)) == SessionMsgs(lib, files)
  {
    hide FileRecords, Recovered, Recoverable, IndexFits, Loaded, Plain, Listed, Rising, RisingMsgs, Indexed, Msgs;
    RecoveredSession(lib, files, segs, channels);
    RisingBack(lib, AllRecords(segs));
    forall i | 0 <= i < |segs|
      ensures Indexed(segs[i])
    {
      RecoveredIsIndexed(lib, files[i], segs[i]);
    }
    AllRecordsAre(segs);
  }

  /** So a read with a start time visits what the options ask for from the segment sought on. */
  lemma RecoveredRead(lib: Library, files: seq<bytes>, segs: seq<SegmentData>, channels: seq<u16>, o: ReadOptions, go: seq<Msg> -> bool)
    requires AllRecoverable(files) && OpensRecovered(lib, files, segs) && segs != [] && o.startNs > 0
    requires Plain(lib, SessionRecords(files)) && Listed(SessionRecords(files), channels) && RisingMsgs(SessionMsgs(lib, files))
    ensures Filter(o, SessionMsgs(lib, files)) == Missed(lib, segs, o) + Seen(lib, segs, o)
    ensures Scan(o, go, [], Msgs(lib, SoughtRecords(segs, channels, o.startNs))) == Visited(go, [], Seen(lib, segs, o))
  {
    hide AllRecoverable, OpensRecovered, Orderly, Plain, Listed, RisingMsgs, Msgs, Missed, Seen, SoughtRecords;
    RecoveredIsOrderly(lib, files, segs, channels);
    ReadAgainstFilter(lib, segs, channels, o, go);
  }
}

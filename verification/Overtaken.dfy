/** Runs whose chunks a seek jumps over although messages in them are wanted: one overtaken by another channel's, one that reaches up to the next. */
module Overtaken {
  import opened Bytes
  import opened Format
  import opened Outcomes
  import opened Routines
  import opened Stream
  import opened Index
  import opened Recording
  import opened Conservation
  import opened Runs
  import opened RoundTrip
  import opened Summary
  import opened Opening
  import opened Seeking
  import opened Playback
  import opened Recorded
  import opened Gaps
  import opened ChannelClocks
  import opened RecordedByChannel
  import Seqs

  // ----- two chunks in a segment of their own -----

  lemma {:induction false} FlushOnly(c: Config, L: Log, k: nat, ch: nat)
    requires Shaped(c, L) && k < |L.pending| && ch <= k && forall i :: 0 <= i < |L.pending| && i != k ==> L.pending[i] == []
    ensures FlushFrom(c, L, ch) == FlushOne(c, L, k)
    decreases k - ch
  {
    hide PendingChunk, Refused, Rotate;
    if ch < k {
      FlushOnly(c, L, k, ch + 1);
    } else {
      NothingToFlush(c, FlushOne(c, L, k), k + 1);
    }
  }

  /** A message written and flushed alone is a chunk of its own. */
  lemma WrittenAndFlushed(c: Config, L: Log, m: Msg)
    requires Shaped(c, L) && Flushed(L, |L.pending|) && m.ch < |L.channels| && L.channels[m.ch].compression != CODEC_NONE
    requires c.maxBytes == 0 && c.maxDurationNs == 0
    ensures var r := FlushAll(c, Write(c, L, m, false));
            r == Append(L, Chunk(m.ch, L.channels[m.ch].compression, [m])) && Flushed(r, |r.pending|)
  {
    hide ChunkPayload, DataRange, Inner;
    var L1 := L.(pending := L.pending[m.ch := [m]]);
    assert L.pending[m.ch] + [m] == [m];
    assert L1.pending[m.ch := []] == L.pending;
    FlushOnly(c, L1, m.ch, 0);
    NothingPendsThen(c, FlushOne(c, L1, m.ch));
  }

  /** A segment begun, a chunk of one channel, and behind it a chunk of another. */
  function Overtaking(calls: seq<Call>, m1: Msg, m2: Msg): seq<Call> {
    calls + [RotateNow] + [WriteMessage(m1, false)] + [FlushBuffers] + [WriteMessage(m2, false)] + [FlushBuffers]
  }

  ghost predicate Chunked(c: Config, calls: seq<Call>, m1: Msg, m2: Msg)
    requires |c.sessionId| == 16
  {
    OpenedIsShaped(c);
    var channels := Run(c, Opened(c), calls).channels;
    && !c.singleFile && c.maxBytes == 0 && c.maxDurationNs == 0
    && m1.ch != m2.ch && m1.ch < |channels| && m2.ch < |channels|
    && channels[m1.ch].compression != CODEC_NONE && channels[m2.ch].compression != CODEC_NONE
  }

  lemma CallsOf(c: Config, L: Log, m: Msg)
    requires Shaped(c, L) && m.ch < |L.channels| && !c.singleFile
    ensures After(c, L, WriteMessage(m, false)) == Write(c, L, m, false) && After(c, L, FlushBuffers) == FlushAll(c, L)
    ensures After(c, L, RotateNow) == RotateSegment(c, L)
  {
    hide Write, FlushAll, RotateSegment;
  }

  /** The last segment of such a run: nothing but control records, then the two chunks. */
  lemma OvertakingRun(c: Config, calls: seq<Call>, m1: Msg, m2: Msg) returns (front: seq<Entry>)
    requires Usable(c) && |c.sessionId| == 16 && Shaped(c, Opened(c)) && AllAllowed(c, Opened(c), Overtaking(calls, m1, m2))
    requires Chunked(c, calls, m1, m2)
    ensures var L, closed := Run(c, Opened(c), calls), Closing(c, Run(c, Opened(c), Overtaking(calls, m1, m2)));
            && L.channels == Run(c, Opened(c), Overtaking(calls, m1, m2)).channels && Blank(c, front) && closed != []
            && closed[|closed| - 1].entries ==
               (front + [Chunk(m1.ch, L.channels[m1.ch].compression, [m1])]) + [Chunk(m2.ch, L.channels[m2.ch].compression, [m2])]
  {
    hide Opened, AllAllowed, Good, Settled, Blank, RotateSegment, FlushAll, Write, Usable, Flushed;
    var w1, w2 := WriteMessage(m1, false), WriteMessage(m2, false);
    var b := calls + [RotateNow];
    var d := b + [w1];
    var e := d + [FlushBuffers];
    var f := e + [w2];
    RunSnoc(c, Opened(c), calls, RotateNow);
    RunSnoc(c, Opened(c), b, w1);
    RunSnoc(c, Opened(c), d, FlushBuffers);
    RunSnoc(c, Opened(c), e, w2);
    RunSnoc(c, Opened(c), f, FlushBuffers);
    var L := Run(c, Opened(c), calls);
    StartsGood(c, calls);
    RotatedIsBlank(c, L);
    CallsOf(c, L, m1);
    var L1 := RotateSegment(c, L);
    CallsOf(c, L1, m1);
    WrittenAndFlushed(c, L1, m1);
    var L2 := FlushAll(c, Write(c, L1, m1, false));
    CallsOf(c, Write(c, L1, m1, false), m1);
    CallsOf(c, L2, m2);
    WrittenAndFlushed(c, L2, m2);
    CallsOf(c, Write(c, L2, m2, false), m2);
    NothingPendsThen(c, Run(c, Opened(c), Overtaking(calls, m1, m2)));
    front := L1.cur.entries;
  }

  lemma StartsGood(c: Config, calls: seq<Call>)
    requires Usable(c) && Shaped(c, Opened(c)) && AllAllowed(c, Opened(c), calls)
    ensures Good(c, Run(c, Opened(c), calls)) && Shaped(c, Run(c, Opened(c), calls))
  {
    hide Good, Usable;
    OpenedIsSettled(c);
    RunKeeps(c, Opened(c), calls);
  }

  // ----- where a seek between the two lands -----

  /** Both chunks get a seek point, and from the target only the second one counts. */
  ghost predicate Passing(c: Config, e1: Entry, e2: Entry, target: u64) {
    && e1.Chunk? && e2.Chunk? && e1.msgs != [] && e2.msgs != [] && FirstTs(e2.msgs) <= target
    && if e1.ch == e2.ch then FirstTs(e1.msgs) < FirstTs(e2.msgs) && FirstTs(e2.msgs) - FirstTs(e1.msgs) >= c.intervalNs
       else target < FirstTs(e1.msgs)
  }

  lemma BothDue(interval: u64, p1: SeekPoint, p2: SeekPoint)
    requires p1.ch != p2.ch || (p1.ts < p2.ts && p2.ts - p1.ts >= interval)
    ensures AddIfDue(interval, [], p1) == [p1] && AddIfDue(interval, [p1], p2) == [p1, p2]
  {
    assert LastOn([p1], p2.ch) == if p1.ch == p2.ch then Some(p1.ts) else LastOn([], p2.ch) by {
      assert [p1][..0] == [] && [p1][|[p1]| - 1] == p1;
    }
    assert p1.ts < p2.ts ==> Elapsed(p2.ts, p1.ts) == p2.ts - p1.ts;
    assert [p1] + [p2] == [p1, p2] && [] + [p1] == [p1];
  }

  lemma TwoPoints(c: Config, front: seq<Entry>, e1: Entry, e2: Entry, target: u64)
    requires Blank(c, front) && Passing(c, e1, e2, target)
    ensures var es := (front + [e1]) + [e2];
            && Points(c, es) == [SeekPoint(e1.ch, FirstTs(e1.msgs), OffsetAfter(c, front)), SeekPoint(e2.ch, FirstTs(e2.msgs), OffsetAfter(c, front + [e1]))]
            && DataRange(es).hasData
            && DataRange(es).startNs == if FirstTs(e2.msgs) < FirstTs(e1.msgs) then FirstTs(e2.msgs) else FirstTs(e1.msgs)
  {
    hide OffsetAfter, FirstTs, LastTs, SoundEntries, Content, Points, DataRange, AddIfDue, Recs, Body;
    var p1, p2 := SeekPoint(e1.ch, FirstTs(e1.msgs), OffsetAfter(c, front)), SeekPoint(e2.ch, FirstTs(e2.msgs), OffsetAfter(c, front + [e1]));
    Snoc(c, front, e1);
    Snoc(c, front + [e1], e2);
    BothDue(c.intervalNs, p1, p2);
  }

  lemma RecordsInFront(c: Config, es: seq<Entry>, more: seq<Entry>)
    ensures InFront(Recs(c, es + more), OffsetAfter(c, es)) == Recs(c, es)
  {
    hide ToRec, EncodeAll, InFront;
    RecsConcat(c, es, more);
    var rs, n := Recs(c, es + more), |Recs(c, es)|;
    assert rs[..n] == Recs(c, es);
    InFrontOf(rs, n);
  }

  /** The seek finds the second chunk's point only. */
  lemma SecondPoint(points: seq<SeekPoint>, p1: SeekPoint, p2: SeekPoint, ids: seq<u16>, target: u64)
    requires Sorted(points) && multiset(points) == multiset([p1, p2]) && p1.offset < U64_MAX && p2.offset < U64_MAX
    requires p2.ch in ids && p2.ts <= target && (p1.ts > target || (p1.ch == p2.ch && p1.ts < p2.ts))
    ensures SeekOffset(points, ids, target) == Some(p2.offset)
  {
    hide Sorted, SeekOffset;
    SameMembers(points, [p1, p2]);
    assert [p1, p2][0] == p1 && [p1, p2][1] == p2;
    assert p1 in points && p2 in points;
    SeekOffsetBounds(points, ids, target);
    assert !NoneUpTo(points, p2.ch, target);
  }

  /** In an opened segment of this shape, a seek between the two jumps over the first chunk. */
  lemma FirstIsJumped(c: Config, seg: Segment, front: seq<Entry>, e1: Entry, e2: Entry, sd: SegmentData, ids: seq<u16>, target: u64)
    requires Usable(c) && SoundSegment(seg) && AllCompress(c, seg.entries) && seg.entries == (front + [e1]) + [e2] && Blank(c, front)
    requires |SealedFile(c, seg)| < U64_MAX && sd.file == SealedFile(c, seg) && Loaded(sd)
    requires Passing(c, e1, e2, target) && e2.ch in ids
    ensures var offset := SeekOffset(sd.idx.Points, ids, target).GetOr(HEADER_SIZE);
            Msgs(c.lib, InFront(FileRecords(sd.file), offset)) == e1.msgs
  {
    hide Usable, SoundEntries, SoundEntry, AllCompress, SealedFile, FileRecords, EncodeAll, Recs, Content, Points, OffsetAfter, FirstTs, Sorted, InFront, SeekOffset, Blank, LastIndex, PointsOf,
      SealedEntries, Msgs, OffsetOf;
    var es, es1 := seg.entries, front + [e1];
    var p1, p2 := SeekPoint(e1.ch, FirstTs(e1.msgs), OffsetAfter(c, front)), SeekPoint(e2.ch, FirstTs(e2.msgs), OffsetAfter(c, es1));
    TwoPoints(c, front, e1, e2, target);
    SealedReadsBack(c, seg);
    SealedIndex(c, seg);
    SealedPoints(c, seg);
    Offsets(c, seg, front, e1, e2);
    SecondPoint(sd.idx.Points, p1, p2, ids, target);
    SealedTailOf(c, es);
    RecordsInFront(c, es1, [e2] + [IndexEntry(c, es), EndEntry(es)]);
    assert es + [IndexEntry(c, es), EndEntry(es)] == es1 + ([e2] + [IndexEntry(c, es), EndEntry(es)]);
    FrontReads(c, seg, front, e1, e2);
  }

  lemma SealedTailOf(c: Config, es: seq<Entry>)
    ensures SealedEntries(c, es) == es + [IndexEntry(c, es), EndEntry(es)]
  {
    hide IndexEntry, EndEntry;
  }

  /** The points of the file's records are those of the segment's entries. */
  lemma SealedPoints(c: Config, seg: Segment)
    requires Usable(c) && SoundSegment(seg)
    ensures PointsOf(c.intervalNs, FileRecords(SealedFile(c, seg))) == Points(c, seg.entries)
  {
    hide Usable, SealedFile, FileRecords, SoundEntry, Points, PointsOf, IndexEntry, EndEntry, ToRec, Recs, Content;
    var es := seg.entries;
    SealedReadsBack(c, seg);
    SealedIsSound(c, es);
    PointsAgree(c, SealedEntries(c, es));
    ControlsAdd(c, es);
  }

  lemma ControlsAdd(c: Config, es: seq<Entry>)
    ensures Points(c, SealedEntries(c, es)) == Points(c, es)
  {
    hide IndexEntry, EndEntry, ToRec, Points;
    EndsAreControls(c, es);
    Snoc(c, es, IndexEntry(c, es));
    Snoc(c, es + [IndexEntry(c, es)], EndEntry(es));
  }

  lemma Offsets(c: Config, seg: Segment, front: seq<Entry>, e1: Entry, e2: Entry)
    requires SoundSegment(seg) && seg.entries == (front + [e1]) + [e2] && |SealedFile(c, seg)| < U64_MAX
    ensures OffsetAfter(c, front) < U64_MAX && OffsetAfter(c, front + [e1]) < U64_MAX
  {
    hide ToRec, EncodeAll, SealedFile, SoundEntries;
    SegmentSize(c, seg);
    BodyConcat(c, front + [e1], [e2]);
    BodyConcat(c, front, [e1]);
  }

  lemma FrontReads(c: Config, seg: Segment, front: seq<Entry>, e1: Entry, e2: Entry)
    requires Usable(c) && SoundSegment(seg) && AllCompress(c, seg.entries) && seg.entries == (front + [e1]) + [e2] && Blank(c, front) && e1.Chunk?
    ensures Msgs(c.lib, Recs(c, front + [e1])) == e1.msgs
  {
    hide Usable, SoundEntry, Compresses, Recs, Points, DataRange, Content;
    var es1 := front + [e1];
    assert forall e :: e in es1 ==> e in seg.entries;
    InvertsOf(c);
    RecsReadBack(c, es1);
    Snoc(c, front, e1);
    assert [] + e1.msgs == e1.msgs;
  }

  /** What a read from the target misses in a run that ends with two such chunks. */
  lemma PassedOver(c: Config, all: seq<Call>, front: seq<Entry>, e1: Entry, e2: Entry, segs: seq<SegmentData>, target: u64, m: Msg)
    requires ReadyByChannel(c, all, segs) && |c.sessionId| == 16 && Shaped(c, Opened(c)) && Reopened(c, Closing(c, Run(c, Opened(c), all)), segs)
    requires var closed := Closing(c, Run(c, Opened(c), all)); closed != [] && closed[|closed| - 1].entries == (front + [e1]) + [e2]
    requires Blank(c, front) && Passing(c, e1, e2, target) && e2.ch < |Run(c, Opened(c), all).channels|
    requires target > 0 && m in e1.msgs && m.ts >= target
    ensures var o, ids := ReadOptions([], target, 0), Ids(Run(c, Opened(c), all).channels);
            && segs != [] && Wanted(o, m) && m in Msgs(c.lib, Jumped(segs, ids, target))
            && Scan(o, _ => true, [], Msgs(c.lib, SoughtRecords(segs, ids, target))) != Filter(o, SessionMsgs(c.lib, FilesOf(segs)))
  {
    hide Opened, AllAllowed, Usable, IndexableByChannel, SoundClosed, ChunksCompressed, RisesOn, ClosedContent, SealedFile, Blank, Closing, Run, Ids, AllIndexed, Placed, Loaded,
      SeekSegment, SoughtIndex, SoughtRecords, Scan, Filter, SessionMsgs, Msgs, InFront, SeekOffset, Accepted, Only, FirstTs, DataRange, Jumped;
    var o, closed, ids := ReadOptions([], target, 0), Closing(c, Run(c, Opened(c), all)), Ids(Run(c, Opened(c), all).channels);
    var n := |closed| - 1;
    AllowedOf(c, all, segs);
    RunFacts(c, all, segs);
    TwoPoints(c, front, e1, e2, target);
    FilesFit(c, all, segs);
    SoughtByManifest(c, closed, segs, target);
    LastIsSought(closed, target);
    LastParts(c, closed, segs, n);
    IdKnown(c, all, e2.ch);
    FirstIsJumped(c, closed[n], front, e1, e2, segs[n], ids, target);
    JumpedIs(segs, ids, target, n);
    ReadOfAnyIsComplete(c.lib, segs, ids, o);
  }

  /**
   * A run in which one channel's chunk reaches the file before another's although it is later: a read
   * from a time between the two jumps over it, although the message in it is wanted.
   */
  lemma OvertakenIsLost(c: Config, calls: seq<Call>, m1: Msg, m2: Msg, segs: seq<SegmentData>, target: u64)
    requires ReadyByChannel(c, Overtaking(calls, m1, m2), segs) && |c.sessionId| == 16 && Chunked(c, calls, m1, m2)
    requires Shaped(c, Opened(c)) && Reopened(c, Closing(c, Run(c, Opened(c), Overtaking(calls, m1, m2))), segs)
    requires target > 0 && m2.ts <= target < m1.ts
    ensures var o, ids := ReadOptions([], target, 0), Ids(Run(c, Opened(c), Overtaking(calls, m1, m2)).channels);
            && segs != [] && Wanted(o, m1) && m1 in Msgs(c.lib, Jumped(segs, ids, target))
            && Scan(o, _ => true, [], Msgs(c.lib, SoughtRecords(segs, ids, target))) != Filter(o, SessionMsgs(c.lib, FilesOf(segs)))
  {
    hide Opened, AllAllowed, Usable, IndexableByChannel, Overtaking, Blank, Closing, Run, Ids, Reopened, Opens, FirstTs, SessionMsgs, Scan, Filter, Msgs, Jumped, SoughtRecords;
    var all := Overtaking(calls, m1, m2);
    AllowedOf(c, all, segs);
    var front := OvertakingRun(c, calls, m1, m2);
    var channels := Run(c, Opened(c), calls).channels;
    FirstOf([m1]);
    FirstOf([m2]);
    PassedOver(c, all, front, Chunk(m1.ch, channels[m1.ch].compression, [m1]), Chunk(m2.ch, channels[m2.ch].compression, [m2]), segs, target, m1);
  }

  // ----- a chunk that reaches up to the next -----

  /** Two messages written and then flushed are one chunk. */
  lemma PairFlushed(c: Config, L: Log, m0: Msg, m1: Msg)
    requires Shaped(c, L) && Flushed(L, |L.pending|) && m0.ch == m1.ch < |L.channels| && L.channels[m0.ch].compression != CODEC_NONE
    requires |Inner([m0])| < L.channels[m0.ch].chunkSize && c.maxBytes == 0 && c.maxDurationNs == 0
    ensures var r := FlushAll(c, Write(c, Write(c, L, m0, false), m1, false));
            r == Append(L, Chunk(m0.ch, L.channels[m0.ch].compression, [m0, m1])) && Flushed(r, |r.pending|)
  {
    hide ChunkPayload, DataRange, Inner;
    var L1 := L.(pending := L.pending[m0.ch := [m0]]);
    var L2 := L.(pending := L.pending[m0.ch := [m0, m1]]);
    assert L.pending[m0.ch] + [m0] == [m0] && [m0] + [m1] == [m0, m1];
    assert L1.pending[m0.ch := [m0, m1]] == L2.pending && L2.pending[m0.ch := []] == L.pending;
    assert Write(c, L, m0, false) == L1;
    FlushOnly(c, L2, m0.ch, 0);
    NothingPendsThen(c, FlushOne(c, L2, m0.ch));
  }

  /** A segment begun, a chunk of two messages, and behind it a chunk of the same channel. */
  function Reaching(calls: seq<Call>, m0: Msg, m1: Msg, m2: Msg): seq<Call> {
    calls + [RotateNow] + [WriteMessage(m0, false)] + [WriteMessage(m1, false)] + [FlushBuffers] + [WriteMessage(m2, false)] + [FlushBuffers]
  }

  ghost predicate OnOneChannel(c: Config, calls: seq<Call>, m0: Msg, m1: Msg, m2: Msg)
    requires |c.sessionId| == 16
  {
    OpenedIsShaped(c);
    var channels := Run(c, Opened(c), calls).channels;
    && !c.singleFile && c.maxBytes == 0 && c.maxDurationNs == 0
    && m0.ch == m1.ch == m2.ch < |channels| && channels[m0.ch].compression != CODEC_NONE && |Inner([m0])| < channels[m0.ch].chunkSize
  }

  lemma ReachingRun(c: Config, calls: seq<Call>, m0: Msg, m1: Msg, m2: Msg) returns (front: seq<Entry>)
    requires Usable(c) && |c.sessionId| == 16 && Shaped(c, Opened(c)) && AllAllowed(c, Opened(c), Reaching(calls, m0, m1, m2))
    requires OnOneChannel(c, calls, m0, m1, m2)
    ensures var L, closed := Run(c, Opened(c), calls), Closing(c, Run(c, Opened(c), Reaching(calls, m0, m1, m2)));
            && L.channels == Run(c, Opened(c), Reaching(calls, m0, m1, m2)).channels && Blank(c, front) && closed != []
            && closed[|closed| - 1].entries ==
               (front + [Chunk(m0.ch, L.channels[m0.ch].compression, [m0, m1])]) + [Chunk(m2.ch, L.channels[m2.ch].compression, [m2])]
  {
    hide Opened, AllAllowed, Good, Settled, Blank, RotateSegment, FlushAll, Write, Usable, Flushed, Inner;
    var b := calls + [RotateNow];
    var d := b + [WriteMessage(m0, false)];
    var e := d + [WriteMessage(m1, false)];
    var f := e + [FlushBuffers];
    var g := f + [WriteMessage(m2, false)];
    RunSnoc(c, Opened(c), calls, RotateNow);
    RunSnoc(c, Opened(c), b, WriteMessage(m0, false));
    RunSnoc(c, Opened(c), d, WriteMessage(m1, false));
    RunSnoc(c, Opened(c), e, FlushBuffers);
    RunSnoc(c, Opened(c), f, WriteMessage(m2, false));
    RunSnoc(c, Opened(c), g, FlushBuffers);
    var L := Run(c, Opened(c), calls);
    StartsGood(c, calls);
    RotatedIsBlank(c, L);
    CallsOf(c, L, m0);
    var L1 := RotateSegment(c, L);
    var L2 := Write(c, L1, m0, false);
    var L3 := Write(c, L2, m1, false);
    CallsOf(c, L1, m0);
    CallsOf(c, L2, m1);
    CallsOf(c, L3, m1);
    PairFlushed(c, L1, m0, m1);
    var L4 := FlushAll(c, L3);
    CallsOf(c, L4, m2);
    WrittenAndFlushed(c, L4, m2);
    CallsOf(c, Write(c, L4, m2, false), m2);
    NothingPendsThen(c, Run(c, Opened(c), Reaching(calls, m0, m1, m2)));
    front := L1.cur.entries;
  }

  /**
   * A run in which a chunk ends with the time at which the next one of its channel begins: a read from
   * that time jumps over the chunk, although its channel has a point there and the message is wanted.
   */
  lemma TieInChunkIsLost(c: Config, calls: seq<Call>, m0: Msg, m1: Msg, m2: Msg, segs: seq<SegmentData>)
    requires ReadyByChannel(c, Reaching(calls, m0, m1, m2), segs) && |c.sessionId| == 16 && OnOneChannel(c, calls, m0, m1, m2)
    requires Shaped(c, Opened(c)) && Reopened(c, Closing(c, Run(c, Opened(c), Reaching(calls, m0, m1, m2))), segs)
    requires m0.ts < m1.ts == m2.ts && m2.ts - m0.ts >= c.intervalNs
    ensures var o, ids := ReadOptions([], m2.ts, 0), Ids(Run(c, Opened(c), Reaching(calls, m0, m1, m2)).channels);
            && segs != [] && Wanted(o, m1) && m1 in Msgs(c.lib, Jumped(segs, ids, m2.ts))
            && Scan(o, _ => true, [], Msgs(c.lib, SoughtRecords(segs, ids, m2.ts))) != Filter(o, SessionMsgs(c.lib, FilesOf(segs)))
  {
    hide Opened, AllAllowed, Usable, IndexableByChannel, Reaching, Blank, Closing, Run, Ids, Reopened, Opens, FirstTs, SessionMsgs, Scan, Filter, Msgs, Jumped, SoughtRecords, Inner;
    var all := Reaching(calls, m0, m1, m2);
    AllowedOf(c, all, segs);
    var front := ReachingRun(c, calls, m0, m1, m2);
    var channels := Run(c, Opened(c), calls).channels;
    FirstOf([m0, m1]);
    FirstOf([m2]);
    assert m1 in [m0, m1] by { assert [m0, m1][1] == m1; }
    PassedOver(c, all, front, Chunk(m0.ch, channels[m0.ch].compression, [m0, m1]), Chunk(m2.ch, channels[m2.ch].compression, [m2]), segs, m2.ts, m1);
  }

  lemma JumpedIs(segs: seq<SegmentData>, ids: seq<u16>, target: u64, n: nat)
    requires segs != [] && SeekSegment(segs, target) == n
    ensures n < |segs| && Jumped(segs, ids, target) == InFront(FileRecords(segs[n].file), SeekOffset(segs[n].idx.Points, ids, target).GetOr(HEADER_SIZE))
  {
    hide FileRecords, SeekOffset, InFront;
  }

  lemma FirstOf(ms: seq<Msg>)
    requires ms != []
    ensures FirstTs(ms) == ms[0].ts
  {
  }

  lemma AllowedOf(c: Config, calls: seq<Call>, segs: seq<SegmentData>)
    requires ReadyByChannel(c, calls, segs)
    ensures Usable(c) && |c.sessionId| == 16 && Shaped(c, Opened(c)) && AllAllowed(c, Opened(c), calls) && Opens(c, Closing(c, Run(c, Opened(c), calls)), segs)
  {
    hide AllAllowed, IndexableByChannel, Closing, Run;
    UsableId(c);
  }

  lemma FilesFit(c: Config, calls: seq<Call>, segs: seq<SegmentData>)
    requires ReadyByChannel(c, calls, segs) && |c.sessionId| == 16 && Shaped(c, Opened(c))
    ensures var closed := Closing(c, Run(c, Opened(c), calls)); forall i :: 0 <= i < |closed| ==> |SealedFile(c, closed[i])| < U64_MAX
  {
    hide AllAllowed, Closing, Run, SealedFile, RisesOn, Accepted, ChunksCompressed, Loaded, Usable;
  }

  lemma LastIsSought(closed: seq<Segment>, target: u64)
    requires closed != [] && DataRange(closed[|closed| - 1].entries).startNs <= target
    ensures SoughtIndex(closed, target) == |closed| - 1
  {
    hide DataRange;
  }

  lemma LastParts(c: Config, closed: seq<Segment>, segs: seq<SegmentData>, n: nat)
    requires SoundClosed(closed) && ChunksCompressed(c, closed) && Opens(c, closed, segs) && n < |closed|
    ensures SoundSegment(closed[n]) && AllCompress(c, closed[n].entries) && n < |segs| && segs[n].file == SealedFile(c, closed[n]) && Loaded(segs[n])
  {
    hide SealedFile, Loaded, SoundEntries, AllCompress;
  }

  lemma IdKnown(c: Config, calls: seq<Call>, ch: u16)
    requires Usable(c) && Shaped(c, Opened(c)) && AllAllowed(c, Opened(c), calls) && ch < |Run(c, Opened(c), calls).channels|
    ensures ch in Ids(Run(c, Opened(c), calls).channels)
  {
    hide Usable, Good, Opened;
    StartsGood(c, calls);
    var L := Run(c, Opened(c), calls);
    ChannelFacts(c, L, ch);
    IdsAre(L.channels, ch);
  }
}

/** Runs whose sessions a read by index does not give back in full: where empty segments and ties come from. */
module Gaps {
  import opened Bytes
  import opened Format
  import opened Outcomes
  import opened Routines
  import opened Stream
  import opened Recording
  import opened Conservation
  import opened Runs
  import opened RoundTrip
  import opened Summary
  import opened Opening
  import opened Seeking
  import opened Playback
  import opened IndexedRead
  import opened Recorded
  import opened Reopening
  import opened Chronicle
  import Seqs
  import Writer

  // ----- a rotation just before Close -----

  lemma {:induction false} NoDataNoPoints(interval: u64, rs: seq<Rec>)
    requires !HasData(rs)
    ensures PointsOf(interval, rs) == []
    decreases |rs|
  {
    hide HoldsData;
    if rs != [] {
      var n := |rs| - 1;
      assert !HoldsData(rs[n]) && forall i :: 0 <= i < n ==> rs[..n][i] == rs[i];
      NoDataNoPoints(interval, rs[..n]);
    }
  }

  lemma {:induction false} NoDataIsStored(c: Config, es: seq<Entry>)
    requires !DataRange(es).hasData
    ensures Points(c, es) == []
    decreases |es|
  {
    hide OffsetAfter, FirstTs, LastTs;
    if es != [] {
      NoDataIsStored(c, es[..|es| - 1]);
    }
  }

  /** After a rotation the current segment is blank and nothing is buffered. */
  lemma RotatedIsBlank(c: Config, L: Log)
    requires Good(c, L) && |c.sessionId| == 16 && |L.pending| == |L.channels| <= 0x1_0000
    ensures var r := RotateSegment(c, L); Good(c, r) && Blank(c, r.cur.entries) && Flushed(r, |r.pending|)
  {
    hide Good, Fresh, FlushAll, Blank;
    RotateSettles(c, L);
    FlushAllKeeps(c, L);
    var L1 := FlushAll(c, L);
    GoodParts(c, L1);
    FreshIsSound(c, SegmentNumber(|L1.closed| + 1), L1.channels);
  }

  lemma GoodParts(c: Config, L: Log)
    requires Good(c, L)
    ensures Usable(c) && |c.sessionId| == 16 && forall i :: 0 <= i < |L.channels| ==> SoundChannel(L.channels[i], i)
  {
  }

  lemma BlankHasNoData(c: Config, es: seq<Entry>)
    requires Blank(c, es)
    ensures !DataRange(es).hasData && Content(es) == [] && DataRange(es) == Range(false, 0, 0)
  {
    Writer.BlankRange(es);
  }

  /** A session whose last segment holds no data: whatever it recorded, a read with a start time visits nothing. */
  lemma LastSegmentCaptures(c: Config, closed: seq<Segment>, segs: seq<SegmentData>, channels: seq<u16>, o: ReadOptions, go: seq<Msg> -> bool)
    requires Usable(c) && SoundClosed(closed) && Reopened(c, closed, segs)
    requires closed != [] && |SealedFile(c, closed[|closed| - 1])| <= U64_MAX && o.startNs > 0
    requires !DataRange(closed[|closed| - 1].entries).hasData
    ensures Scan(o, go, [], Msgs(c.lib, SoughtRecords(segs, channels, o.startNs))) == []
  {
    hide Usable, SoundEntries, Content, ClosedContent, SealedFile, FileRecords, Info, DataRange, HasData, SoughtRecords, Scan, StartOf, Greatest, LastIndex;
    var n := |closed| - 1;
    assert SoundSegment(closed[n]);
    assert Placed(segs[n], Source(Some(SealedFile(c, closed[n])), Info(c, n, closed[n])));
    RecordedIsDated(c, n, closed[n], segs[n]);
    SealedHasData(c, closed[n]);
    NoDataIsStored(c, closed[n].entries);
    SealedIndex(c, closed[n]);
    NoDataNoPoints(c.intervalNs, FileRecords(segs[n].file));
    Writer.BlankRange(closed[n].entries);
    LastEmptySegmentCaptures(c.lib, segs, channels, o, go);
  }

  /** What is closed at the end of a run that ends in RotateNow. */
  lemma ClosingAfterRotation(c: Config, calls: seq<Call>)
    requires Usable(c) && AllAllowed(c, Opened(c), calls) && !c.singleFile
    ensures var closed := Closing(c, Run(c, Opened(c), calls + [RotateNow]));
            && closed != [] && SoundClosed(closed)
            && !DataRange(closed[|closed| - 1].entries).hasData
  {
    hide Opened, AllAllowed, Accepted, Only, Sealed, Written, IndexEntry, EndEntry, SoundClosed, ClosedContent, Blank, DataRange, Good, Usable, OnDisk, RotateSegment, FlushAll;
    OpenedHolds(c);
    var L := Run(c, Opened(c), calls);
    ClosingLog(c, calls);
    RunSnoc(c, Opened(c), calls, RotateNow);
    assert Accepted(c, Opened(c), calls) + [] == Accepted(c, Opened(c), calls);
    ClosingLog(c, calls + [RotateNow]);
    RotatedIsBlank(c, L);
    var r := RotateSegment(c, L);
    BlankHasNoData(c, r.cur.entries);
    NothingPendsThen(c, r);
  }

  lemma NothingPendsThen(c: Config, L: Log)
    requires Shaped(c, L) && Flushed(L, |L.pending|)
    ensures FlushAll(c, L) == L
  {
    NothingToFlush(c, L, 0);
  }

  /** Every run in directory mode that ends in RotateNow closes with such a segment. */
  lemma RotateThenClose(c: Config, calls: seq<Call>, segs: seq<SegmentData>, channels: seq<u16>, o: ReadOptions, go: seq<Msg> -> bool)
    requires Usable(c) && AllAllowed(c, Opened(c), calls) && !c.singleFile
    requires var closed := Closing(c, Run(c, Opened(c), calls + [RotateNow]));
             Reopened(c, closed, segs) && forall i :: 0 <= i < |closed| ==> |SealedFile(c, closed[i])| <= U64_MAX
    requires o.startNs > 0
    ensures Scan(o, go, [], Msgs(c.lib, SoughtRecords(segs, channels, o.startNs))) == []
  {
    hide Opened, AllAllowed, Accepted, SoundClosed, ClosedContent, DataRange, Usable, Closing, SealedFile, Placed, SoughtRecords, Scan, Msgs;
    ClosingAfterRotation(c, calls);
    LastSegmentCaptures(c, Closing(c, Run(c, Opened(c), calls + [RotateNow])), segs, channels, o, go);
  }

  // ----- a timestamp on both sides of a rotation -----

  /** One direct write behind a blank segment leaves that message alone in the last segment. */
  lemma WrittenAlone(c: Config, L: Log, m: Msg)
    requires Good(c, L) && Shaped(c, L) && Uncompressed(L) && Blank(c, L.cur.entries)
    ensures var r := WriteDirect(c, L, m);
            Content(r.cur.entries) == [m] && DataRange(r.cur.entries) == Range(true, m.ts, m.ts)
  {
    hide Good, Fresh, Blank, Uncompressed, NeedsRotation, RotateSegment;
    RotatedIsBlank(c, L);
    var before := if NeedsRotation(c, L.cur, m.ts, ENVELOPE_SIZE + |m.data| + CLOSING_SIZE) then RotateSegment(c, L) else L;
    BlankHasNoData(c, before.cur.entries);
    Snoc(c, before.cur.entries, Message(m));
    assert [] + [m] == [m];
  }

  /** The calls that put one timestamp on both sides of a rotation. */
  function Straddling(calls: seq<Call>, m1: Msg, m2: Msg): seq<Call> {
    calls + [WriteMessage(m1, false)] + [RotateNow] + [WriteMessage(m2, false)]
  }

  lemma StraddlingRun(c: Config, calls: seq<Call>, m1: Msg, m2: Msg)
    requires Usable(c) && !c.singleFile && Shaped(c, Opened(c)) && AllAllowed(c, Opened(c), Straddling(calls, m1, m2))
    requires DefinesUncompressed(Straddling(calls, m1, m2))
    requires m1.ch < |Run(c, Opened(c), calls).channels| && m2.ch < |Run(c, Opened(c), calls).channels|
    ensures Accepted(c, Opened(c), Straddling(calls, m1, m2)) == (Accepted(c, Opened(c), calls) + [m1]) + [m2]
    ensures var closed := Closing(c, Run(c, Opened(c), Straddling(calls, m1, m2)));
            && closed != []
            && Content(closed[|closed| - 1].entries) == [m2] && DataRange(closed[|closed| - 1].entries) == Range(true, m2.ts, m2.ts)
  {
    hide Opened, AllAllowed, Accepted, Good, Settled, Uncompressed, Blank, Content, DataRange, RotateSegment, FlushAll, WriteDirect, Usable, Fits, DefinesUncompressed;
    var w1, w2 := WriteMessage(m1, false), WriteMessage(m2, false);
    var a1, all := calls + [w1], Straddling(calls, m1, m2);
    var a2 := a1 + [RotateNow];
    RunSnoc(c, Opened(c), calls, w1);
    RunSnoc(c, Opened(c), a1, RotateNow);
    RunSnoc(c, Opened(c), a2, w2);
    var L0, L1, L2 := Run(c, Opened(c), calls), Run(c, Opened(c), a1), Run(c, Opened(c), a2);
    assert a1 + ([RotateNow] + [w2]) == all && a2 + [w2] == all && all + [] == all;
    UncompressedAlong(c, a1, [RotateNow] + [w2]);
    UncompressedAlong(c, a2, [w2]);
    UncompressedAlong(c, all, []);
    AfterWrite(c, L0, w1);
    AfterRotate(c, L1);
    AfterWrite(c, L2, w2);
    assert Accepted(c, Opened(c), a1) + [] == Accepted(c, Opened(c), a1);
    RotatedIsBlank(c, L1);
    WrittenAlone(c, L2, m2);
    var L3 := Run(c, Opened(c), all);
    NothingPends(c, L3);
    NothingPendsThen(c, L3);
  }

  /** Every state of an uncompressed run is good and holds no chunk. */
  lemma UncompressedAlong(c: Config, calls: seq<Call>, more: seq<Call>)
    requires Usable(c) && Shaped(c, Opened(c)) && AllAllowed(c, Opened(c), calls + more) && DefinesUncompressed(calls + more)
    ensures var L := Run(c, Opened(c), calls); Invariant(c, L) && Uncompressed(L) && Shaped(c, L)
  {
    hide Fresh, Usable, Content;
    OpenedIsSettled(c);
    FreshHasNoChunks(c, 0, []);
    RunJoins(c, Opened(c), calls, more);
    forall call | call in calls && call.DefineChannel?
      ensures call.config.compression == CODEC_NONE
    {
      assert call in calls + more;
    }
    RunKeepsOrder(c, Opened(c), calls);
    RunKeeps(c, Opened(c), calls);
  }

  lemma AfterWrite(c: Config, L: Log, call: Call)
    requires Shaped(c, L) && call.WriteMessage? && call.m.ch < |L.channels|
    ensures After(c, L, call).channels == L.channels && Taken(L, call) == [call.m]
    ensures Uncompressed(L) ==> After(c, L, call) == WriteDirect(c, L, call.m)
  {
  }

  lemma AfterRotate(c: Config, L: Log)
    requires Shaped(c, L) && !c.singleFile
    ensures After(c, L, RotateNow) == RotateSegment(c, L) && RotateSegment(c, L).channels == L.channels && Taken(L, RotateNow) == []
  {
  }

  /**
   * A run that writes one timestamp on both sides of a rotation: a read from that time does not give
   * all messages from that time on; it passes over the first of the two.
   */
  lemma TieIsMissed(c: Config, calls: seq<Call>, m1: Msg, m2: Msg, segs: seq<SegmentData>)
    requires ReadyToRead(c, Straddling(calls, m1, m2), segs) && !c.singleFile && Shaped(c, Opened(c))
    requires Reopened(c, Closing(c, Run(c, Opened(c), Straddling(calls, m1, m2))), segs)
    requires m1.ch < |Run(c, Opened(c), calls).channels| && m2.ch < |Run(c, Opened(c), calls).channels|
    requires m1.ts == m2.ts > 0
    ensures var all, o := Straddling(calls, m1, m2), ReadOptions([], m1.ts, 0);
            Scan(o, _ => true, [], Msgs(c.lib, SoughtRecords(segs, Ids(Run(c, Opened(c), all).channels), o.startNs)))
            != Filter(o, Accepted(c, Opened(c), all))
  {
    hide Opened, AllAllowed, Accepted, Usable, Run, Closing, Straddling, DefinesUncompressed, RisingMsgs, SealedFile, Loaded, Placed, Content, DataRange, SoundClosed,
      NoChunks, Scan, Filter, Msgs, SoughtRecords, Ids, SeekSegment;
    var all, o := Straddling(calls, m1, m2), ReadOptions([], m1.ts, 0);
    ClosingFacts(c, all, segs);
    IsUsed(c, all);
    var closed := Closing(c, Run(c, Opened(c), all));
    var n := |closed| - 1;
    StraddlingRun(c, calls, m1, m2);
    SoughtByManifest(c, closed, segs, o.startNs);
    assert SoughtIndex(closed, o.startNs) == n;
    var before := Accepted(c, Opened(c), calls) + [m1];
    assert ClosedContent(closed) == ClosedContent(closed[..n]) + [m2];
    Seqs.DropPrefix(ClosedContent(closed[..n]), [m2]);
    Seqs.DropPrefix(before, [m2]);
    assert |ClosedContent(closed[..n])| == |before|;
    assert m1 in ClosedContent(closed[..n]);
    RecordedReadIsComplete(c, all, segs, o);
    assert Wanted(o, m1);
  }
}

/** Reading by index what was recorded on channels that rise each by itself, compressed or not. */
module RecordedByChannel {
  import opened Bytes
  import opened Format
  import opened Routines
  import opened Stream
  import opened Index
  import opened Recording
  import opened Conservation
  import opened Runs
  import opened RoundTrip
  import opened Summary
  import opened Seeking
  import opened Opening
  import opened Playback
  import opened IndexedRead
  import opened Chronicle
  import opened Reopening
  import opened Recorded
  import opened ChannelClocks
  import Seqs
  import Writer

  /** On every channel by itself the timestamps never decrease. */
  ghost predicate RisesOn(ms: seq<Msg>) { forall k: u16 :: RisingMsgs(Only(ms, k)) }

  // ----- the records of one segment -----

  lemma RisesPart(a: seq<Msg>, b: seq<Msg>, c: seq<Msg>)
    requires RisesOn(a + (b + c))
    ensures RisesOn(b) && RisesOn(a + b)
  {
    forall k: u16
      ensures RisingMsgs(Only(b, k)) && RisingMsgs(Only(a + b, k))
    {
      OnlyConcat(a, b + c, k);
      OnlyConcat(b, c, k);
      OnlyConcat(a, b, k);
      MiddleRises(Only(a, k), Only(b, k), Only(c, k));
    }
  }

  lemma MiddleRises(x: seq<Msg>, y: seq<Msg>, z: seq<Msg>)
    requires RisingMsgs(x + (y + z))
    ensures RisingMsgs(y) && RisingMsgs(x + y)
  {
    var all := x + (y + z);
    assert (forall i :: 0 <= i < |y| ==> all[|x| + i] == y[i]) && forall i :: 0 <= i < |x + y| ==> all[i] == (x + y)[i];
  }

  lemma {:induction false} RecAt(c: Config, es: seq<Entry>, i: nat)
    requires i < |es|
    ensures Recs(c, es)[i] == ToRec(c, es[i])
    decreases |es|
  {
    hide ToRec;
    if i < |es| - 1 {
      RecAt(c, es[..|es| - 1], i);
    }
  }

  lemma {:induction false} InContent(es: seq<Entry>, i: nat, m: Msg)
    requires i < |es| && m in EntryMsgs(es[i])
    ensures m in Content(es)
    decreases |es|
  {
    hide EntryMsgs;
    if i < |es| - 1 {
      InContent(es[..|es| - 1], i, m);
    }
  }

  /** A data entry has messages, all on its channel; its record delivers them and carries the time of the first. */
  lemma DataEntry(c: Config, e: Entry)
    requires SoundEntry(e) && Inverts(c.lib) && Compresses(c, e)
    ensures var r := ToRec(c, e);
            && RecMsgs(c.lib, r) == EntryMsgs(e) && (HoldsData(r) <==> !e.Control?)
            && (r.op == OP_DATA ==> |EntryMsgs(e)| == 1)
            && (e.Control? ==> EntryMsgs(e) == [])
            && (!e.Control? ==> EntryMsgs(e) != [] && r.ch == EntryChannel(e) && r.ts == EntryMsgs(e)[0].ts)
            && forall m :: m in EntryMsgs(e) ==> m.ch == r.ch
  {
    hide Intact, Inner, ChunkPayload, Packed, RecMsgs;
    RecordReadsBack(c, e);
    EntryAsData(c, e);
    OpOf(c, e);
  }

  /** Entries whose messages rise on every channel give records that do. */
  lemma {:induction false} TimelyRecs(c: Config, es: seq<Entry>)
    requires SoundEntries(es) && Inverts(c.lib) && AllCompress(c, es) && RisesOn(Content(es))
    ensures Timely(c.lib, Recs(c, es))
    decreases |es|
  {
    hide ToRec, SoundEntry, Compresses, RecMsgs, HoldsData, EntryMsgs, RisesOn, Timely;
    if es == [] {
      NoRecords(c);
    } else {
      var n := |es| - 1;
      var before, e := es[..n], es[n];
      Seqs.Regroup(Content(before), EntryMsgs(e), []);
      assert EntryMsgs(e) + [] == EntryMsgs(e) && [] + (Content(before) + EntryMsgs(e)) == Content(es);
      RisesPart([], Content(before), EntryMsgs(e));
      RisesPart(Content(before), EntryMsgs(e), []);
      TimelyRecs(c, before);
      DataEntry(c, e);
      forall i, m | 0 <= i < n && m in EntryMsgs(es[i]) && !e.Control? && m.ch == ToRec(c, e).ch
        ensures m.ts <= ToRec(c, e).ts
      {
        InContent(before, i, m);
        FirstIsLast(Content(before), EntryMsgs(e), m);
      }
      TimelyEntries(c, before, e);
    }
  }

  lemma NoRecords(c: Config)
    ensures Timely(c.lib, Recs(c, []))
  {
  }

  /** In a rising stream, what stands in front is at most the first of what follows on its channel. */
  lemma FirstIsLast(a: seq<Msg>, b: seq<Msg>, m: Msg)
    requires RisesOn(a + b) && m in a && b != [] && b[0].ch == m.ch
    ensures m.ts <= b[0].ts
  {
    hide RisingMsgs;
    var k := m.ch;
    OnlyConcat(a, b, k);
    OnlyHas(a, m);
    assert RisingMsgs(Only(a + b, k));
    var i :| 0 <= i < |Only(a, k)| && Only(a, k)[i] == m;
    RisingPair(Only(a, k), Only(b, k), i);
  }

  lemma RisingPair(a: seq<Msg>, b: seq<Msg>, i: nat)
    requires RisingMsgs(a + b) && i < |a| && b != []
    ensures a[i].ts <= b[0].ts
  {
    var all := a + b;
    assert all[i] == a[i] && all[|a|] == b[0];
  }

  lemma {:induction false} OnlyHas(ms: seq<Msg>, m: Msg)
    requires m in ms
    ensures m in Only(ms, m.ch)
  {
    if ms[0] != m {
      OnlyHas(ms[1..], m);
    }
  }

  /** One record more, behind everything its channel holds. */
  lemma TimelySnoc(lib: Library, rs: seq<Rec>, r: Rec)
    requires Timely(lib, rs) && Own(lib, r) && forall i :: 0 <= i < |rs| ==> Follows(lib, rs[i], r)
    ensures Timely(lib, rs + [r])
  {
    hide Own, Follows;
    var all := rs + [r];
    assert (forall i :: 0 <= i < |rs| ==> all[i] == rs[i]) && all[|rs|] == r;
  }

  lemma OneOf(c: Config, es: seq<Entry>, i: nat)
    requires SoundEntries(es) && Inverts(c.lib) && AllCompress(c, es) && i < |es|
    ensures var r := Recs(c, es)[i];
            && RecMsgs(c.lib, r) == EntryMsgs(es[i])
            && (HoldsData(r) ==> EntryMsgs(es[i]) != [] && EntryMsgs(es[i])[0].ch == r.ch && EntryMsgs(es[i])[0].ts == r.ts)
            && forall m :: m in EntryMsgs(es[i]) ==> m.ch == r.ch
  {
    hide ToRec, SoundEntry, Compresses, RecMsgs, HoldsData, EntryMsgs, Recs;
    RecAt(c, es, i);
    DataEntry(c, es[i]);
  }

  lemma TimelyEntries(c: Config, before: seq<Entry>, e: Entry)
    requires SoundEntries(before) && SoundEntry(e) && Inverts(c.lib) && AllCompress(c, before) && Compresses(c, e)
    requires Timely(c.lib, Recs(c, before)) && RisesOn(EntryMsgs(e))
    requires forall i, m :: 0 <= i < |before| && m in EntryMsgs(before[i]) && !e.Control? && m.ch == ToRec(c, e).ch ==> m.ts <= ToRec(c, e).ts
    ensures Timely(c.lib, Recs(c, before + [e]))
  {
    hide ToRec, SoundEntries, SoundEntry, AllCompress, Compresses, RecMsgs, HoldsData, EntryMsgs, Recs, Timely, RisesOn;
    var rs, r := Recs(c, before), ToRec(c, e);
    assert Recs(c, before + [e]) == rs + [r] by { Snoc(c, before, e); }
    DataEntry(c, e);
    forall m | m in RecMsgs(c.lib, r)
      ensures HoldsData(r) && m.ch == r.ch && r.ts <= m.ts && (r.op == OP_DATA ==> m.ts == r.ts)
    {
      OwnFirst(EntryMsgs(e), r.ch, m);
    }
    forall i | 0 <= i < |rs|
      ensures Follows(c.lib, rs[i], r)
    {
      OneOf(c, before, i);
      if HoldsData(r) && rs[i].ch == r.ch {
        assert HoldsData(rs[i]) ==> EntryMsgs(before[i])[0] in EntryMsgs(before[i]);
      }
    }
    TimelySnoc(c.lib, rs, r);
  }

  lemma OwnFirst(ms: seq<Msg>, ch: u16, m: Msg)
    requires RisesOn(ms) && m in ms && forall x :: x in ms ==> x.ch == ch
    ensures ms[0].ts <= m.ts
  {
    AllOn(ms, ch);
    assert RisingMsgs(Only(ms, ch));
  }

  lemma {:induction false} AllOn(ms: seq<Msg>, ch: u16)
    requires forall x :: x in ms ==> x.ch == ch
    ensures Only(ms, ch) == ms
  {
    if ms != [] {
      assert ms[0] in ms;
      AllOn(ms[1..], ch);
      assert ms == [ms[0]] + ms[1..];
    }
  }

  lemma SealedCompress(c: Config, es: seq<Entry>)
    requires AllCompress(c, es)
    ensures AllCompress(c, SealedEntries(c, es))
  {
    hide CutPoints, Points, DataRange, Compress;
  }

  lemma SegmentIsTimely(c: Config, seg: Segment)
    requires Usable(c) && SoundSegment(seg) && AllCompress(c, seg.entries) && RisesOn(Content(seg.entries))
    ensures Timely(c.lib, FileRecords(SealedFile(c, seg)))
  {
    hide Usable, SoundEntries, AllCompress, SealedFile, FileRecords, SealedEntries, Recs, Content, RisesOn, Timely;
    SealedReadsBack(c, seg);
    SealedIsSound(c, seg.entries);
    SealedCompress(c, seg.entries);
    InvertsOf(c);
    TimelyRecs(c, SealedEntries(c, seg.entries));
  }

  lemma SegmentIsListed(c: Config, seg: Segment, channels: seq<u16>)
    requires Usable(c) && SoundSegment(seg) && AllCompress(c, seg.entries) && forall m :: m in Content(seg.entries) ==> m.ch in channels
    ensures Listed(FileRecords(SealedFile(c, seg)), channels)
  {
    hide Usable, SoundEntries, AllCompress, SealedFile, FileRecords, SealedEntries, Recs, Content, EntryMsgs, HoldsData, RecMsgs;
    SealedReadsBack(c, seg);
    SealedIsSound(c, seg.entries);
    SealedCompress(c, seg.entries);
    InvertsOf(c);
    var es := SealedEntries(c, seg.entries);
    var rs := Recs(c, es);
    forall i | 0 <= i < |rs| && HoldsData(rs[i])
      ensures rs[i].ch in channels
    {
      OneOf(c, es, i);
      InContent(es, i, EntryMsgs(es[i])[0]);
    }
  }

  // ----- whole runs -----

  /** What reading by index asks of a run whose channels rise each by itself. */
  ghost predicate IndexableByChannel(c: Config, calls: seq<Call>)
    requires |c.sessionId| == 16
  {
    var closed := Closing(c, Run(c, Opened(c), calls));
    && c.intervalNs > 0 && RisesOn(Accepted(c, Opened(c), calls)) && ChunksCompressed(c, closed)
    && forall i :: 0 <= i < |closed| ==> |SealedFile(c, closed[i])| < U64_MAX && IndexStored(c, closed[i])
  }

  /** Such a run, closed, and its segments opened. */
  ghost predicate ReadyByChannel(c: Config, calls: seq<Call>, segs: seq<SegmentData>)
    reads set i | 0 <= i < |segs| :: segs[i].idx
  {
    && Usable(c) && AllAllowed(c, Opened(c), calls)
    && IndexableByChannel(c, calls) && Opens(c, Closing(c, Run(c, Opened(c), calls)), segs)
  }

  lemma SameOnEvery(a: seq<Msg>, b: seq<Msg>)
    requires forall k: u16 :: Only(a, k) == Only(b, k)
    ensures RisesOn(a) <==> RisesOn(b)
    ensures forall m :: m in a ==> m in b
  {
    hide RisingMsgs;
    forall m | m in a
      ensures m in b
    {
      OnlyHas(a, m);
      OnlyIn(b, m.ch);
    }
  }

  lemma {:induction false} OnlyIn(ms: seq<Msg>, k: u16)
    ensures forall m :: m in Only(ms, k) ==> m in ms
  {
    if ms != [] {
      OnlyIn(ms[1..], k);
    }
  }

  lemma RunFacts(c: Config, calls: seq<Call>, segs: seq<SegmentData>)
    requires ReadyByChannel(c, calls, segs)
    ensures |c.sessionId| == 16 && Shaped(c, Opened(c))
    ensures var closed, channels := Closing(c, Run(c, Opened(c), calls)), Run(c, Opened(c), calls).channels;
            && |segs| == |closed| > 0 && SoundClosed(closed) && ChunksCompressed(c, closed) && RisesOn(ClosedContent(closed))
            && (forall k: u16 :: Only(ClosedContent(closed), k) == Only(Accepted(c, Opened(c), calls), k))
            && (forall m :: m in ClosedContent(closed) ==> m.ch in Ids(channels))
            && AllIndexed(segs)
  {
    hide AllAllowed, Accepted, Opened, FlushAll, Sealed, Written, IndexEntry, EndEntry, Only, RisesOn, SealedFile, Usable, Good, Settled, SoundSegment, OnDisk,
      ClosedContent, Loaded, Msgs, AllCompress, Indexed, IndexStored;
    UsableId(c);
    OpenedHolds(c);
    ClosingLog(c, calls);
    var closed, L := Closing(c, Run(c, Opened(c), calls)), Run(c, Opened(c), calls);
    SameOnEvery(ClosedContent(closed), Accepted(c, Opened(c), calls));
    AcceptedOnKnown(c, Opened(c), calls);
    forall m | m in ClosedContent(closed)
      ensures m.ch in Ids(L.channels)
    {
      ChannelFacts(c, L, m.ch);
      IdsAre(L.channels, m.ch);
    }
    SegmentsAreIndexed(c, closed, segs);
  }

  lemma UsableId(c: Config)
    requires Usable(c)
    ensures |c.sessionId| == 16
  {
  }

  lemma ContentOf(closed: seq<Segment>, s: nat)
    requires s < |closed|
    ensures ClosedContent(closed) == ClosedContent(closed[..s]) + (Content(closed[s].entries) + ClosedContent(closed[s + 1..]))
  {
    hide Content, ClosedContent;
    var one, rest := [closed[s]], closed[s + 1..];
    var front, back := closed[..s], closed[s..];
    assert closed == front + back;
    assert back == one + rest;
    ContentJoins(front, back);
    ContentJoins(one, rest);
    ContentOfOne(closed[s]);
  }

  lemma ContentOfOne(seg: Segment)
    ensures ClosedContent([seg]) == Content(seg.entries)
  {
    hide Content;
    var one := [seg];
    assert one[..|one| - 1] == [] && one[|one| - 1] == seg;
    assert [] + Content(seg.entries) == Content(seg.entries);
  }

  /** Every segment of such a run is in time order on each of its channels, all of which the reader knows. */
  lemma SegmentFacts(c: Config, closed: seq<Segment>, segs: seq<SegmentData>, channels: seq<u16>, s: nat)
    requires Usable(c) && SoundClosed(closed) && ChunksCompressed(c, closed) && RisesOn(ClosedContent(closed)) && Opens(c, closed, segs) && s < |closed|
    requires forall m :: m in ClosedContent(closed) ==> m.ch in channels
    ensures Timely(c.lib, SegRecords(segs, s)) && Listed(SegRecords(segs, s), channels)
  {
    hide Usable, SoundSegment, AllCompress, RisesOn, ClosedContent, Content, SealedFile, Loaded, FileRecords, Timely, Listed;
    ContentOf(closed, s);
    RisesPart(ClosedContent(closed[..s]), Content(closed[s].entries), ClosedContent(closed[s + 1..]));
    assert SoundSegment(closed[s]) && AllCompress(c, closed[s].entries);
    SegmentIsTimely(c, closed[s]);
    SegmentIsListed(c, closed[s], channels);
  }

  /**
   * Recorded on channels that rise each by itself, compressed or not, closed, reopened, read by index:
   * a read visits the filter of what stands from the place sought up to the first message behind its
   * end. In the segment sought it jumps over messages behind its start time exactly on the channels
   * without a seek point at or before that time.
   */
  lemma RecordedReadByChannel(c: Config, calls: seq<Call>, segs: seq<SegmentData>, o: ReadOptions, go: seq<Msg> -> bool)
    requires ReadyByChannel(c, calls, segs) && o.startNs > 0
    ensures |c.sessionId| == 16 && segs != []
    ensures var closed, s, ids := Closing(c, Run(c, Opened(c), calls)), SeekSegment(segs, o.startNs), Ids(Run(c, Opened(c), calls).channels);
            var jumped, sought := Msgs(c.lib, Jumped(segs, ids, o.startNs)), Msgs(c.lib, SoughtRecords(segs, ids, o.startNs));
            && s < |closed|
            && (forall k: u16 :: Only(ClosedContent(closed[..s]) + ClosedContent(closed[s..]), k) == Only(Accepted(c, Opened(c), calls), k))
            && ClosedContent(closed[s..]) == jumped + sought
            && Scan(o, go, [], sought) == Visited(go, [], Filter(o, UpTo(o, sought)))
            && forall m :: m in jumped ==> (m.ts > o.startNs <==> NoneUpTo(segs[s].idx.Points, m.ch, o.startNs))
  {
    hide AllAllowed, Accepted, Opened, Run, Closing, Usable, IndexableByChannel, Opens, AllIndexed, SoundClosed, ChunksCompressed, RisesOn, ClosedContent, Jumped, SoughtRecords,
      AllRecords, Msgs, Only, UpTo, Filter, Visited, Scan, Ids, Timely, Listed, NoneUpTo, SeekSegment, SegRecords;
    RunFacts(c, calls, segs);
    var closed, s, ids := Closing(c, Run(c, Opened(c), calls)), SeekSegment(segs, o.startNs), Ids(Run(c, Opened(c), calls).channels);
    ReadOfAny(c.lib, segs, ids, o, go);
    OpenedParts(c, closed, segs, s);
    FromSought(c.lib, segs, ids, o.startNs);
    SegmentFacts(c, closed, segs, ids, s);
    forall m | m in Msgs(c.lib, Jumped(segs, ids, o.startNs))
      ensures m.ts > o.startNs <==> NoneUpTo(segs[s].idx.Points, m.ch, o.startNs)
    {
      SeekLoses(c.lib, segs, ids, o.startNs, m);
    }
  }

  lemma FromSought(lib: Library, segs: seq<SegmentData>, channels: seq<u16>, target: u64)
    requires AllIndexed(segs) && segs != []
    ensures Msgs(lib, AllRecords(segs[SeekSegment(segs, target)..])) == Msgs(lib, Jumped(segs, channels, target)) + Msgs(lib, SoughtRecords(segs, channels, target))
  {
    hide AllIndexed, AllRecords, SegRecords, OffsetOf, OffsetSought, Jumped, SoughtRecords, RecMsgs;
    var s := SeekSegment(segs, target);
    var i := SoughtParts(segs, channels, target);
    var before, behind := AllRecords(segs[..s]), Jumped(segs, channels, target) + SoughtRecords(segs, channels, target);
    assert segs == segs[..s] + segs[s..];
    AllRecordsConcat(segs[..s], segs[s..]);
    Seqs.DropPrefix(before, AllRecords(segs[s..]));
    Seqs.DropPrefix(before, behind);
    MsgsConcat(lib, Jumped(segs, channels, target), SoughtRecords(segs, channels, target));
  }
}
